/**
 The cursor-based byte codec: big- and little-endian values and zero-terminated strings, written
 into and read from a byte vector that silently truncates at its end.
 */
module ByteTransfer {
  import opened Bits

  // ---- Bytes in a vector --------------------------------------------------------------------------

  /** How many of `n` bytes there is room for at `idx`. */
  function Room(data: seq<byte>, idx: nat, n: nat): (k: nat)
    ensures k <= n && (k == 0 || idx + k <= |data|) && (k < n ==> |data| <= idx + k)
  {
    if idx >= |data| then 0 else if n <= |data| - idx then n else |data| - idx
  }

  function Taken(data: seq<byte>, idx: nat, n: nat): (s: seq<byte>)
    ensures |s| == Room(data, idx, n)
  {
    if Room(data, idx, n) == 0 then [] else data[idx..idx + Room(data, idx, n)]
  }

  /** The vector after `bytes` were written at `idx`, one after the other, as far as there is room. */
  function Written(data: seq<byte>, idx: nat, bytes: seq<byte>): (r: seq<byte>)
    ensures |r| == |data|
    decreases |bytes|
  {
    if bytes == [] || idx >= |data| then data else Written(data[idx := bytes[0]], idx + 1, bytes[1..])
  }

  /** The bytes that were there are those up to `idx` and behind what was written. */
  predicate IsWritten(data: seq<byte>, idx: nat, bytes: seq<byte>, r: seq<byte>) {
    && |r| == |data|
    && (forall i :: idx <= i < idx + Room(data, idx, |bytes|) ==> r[i] == bytes[i - idx])
    && (forall i :: 0 <= i < |data| && (i < idx || idx + Room(data, idx, |bytes|) <= i) ==> r[i] == data[i])
  }

  lemma {:induction false} WrittenIs(data: seq<byte>, idx: nat, bytes: seq<byte>)
    ensures IsWritten(data, idx, bytes, Written(data, idx, bytes))
    decreases |bytes|
  {
    if bytes != [] && idx < |data| {
      WrittenIs(data[idx := bytes[0]], idx + 1, bytes[1..]);
    }
  }

  lemma TakenWritten(data: seq<byte>, idx: nat, bytes: seq<byte>)
    ensures Taken(Written(data, idx, bytes), idx, |bytes|) == bytes[..Room(data, idx, |bytes|)]
  {
    var w := Written(data, idx, bytes);
    WrittenIs(data, idx, bytes);
    TakenHeld(w, idx, bytes);
  }

  /** A vector is determined by what a write must do to it. */
  lemma WrittenUnique(data: seq<byte>, idx: nat, bytes: seq<byte>, r: seq<byte>)
    requires IsWritten(data, idx, bytes, r)
    ensures r == Written(data, idx, bytes)
  {
    var w := Written(data, idx, bytes);
    WrittenIs(data, idx, bytes);
    forall i | 0 <= i < |r| ensures r[i] == w[i] {
      if idx <= i < idx + Room(data, idx, |bytes|) { assert w[i] == bytes[i - idx]; }
    }
  }

  /** The vector holds these bytes at `idx`, as many as there is room for. */
  predicate Holds(data: seq<byte>, idx: nat, s: seq<byte>) {
    forall i :: idx <= i < idx + Room(data, idx, |s|) ==> data[i] == s[i - idx]
  }

  lemma TakenHeld(data: seq<byte>, idx: nat, s: seq<byte>)
    requires Holds(data, idx, s)
    ensures Taken(data, idx, |s|) == s[..Room(data, idx, |s|)]
  {
    var t, k := Taken(data, idx, |s|), Room(data, idx, |s|);
    forall j | 0 <= j < k ensures t[j] == s[j] { assert t[j] == data[idx + j]; }
  }

  /** Two writes with one cursor are one write. */
  lemma {:induction false} WrittenBoth(data: seq<byte>, idx: nat, x: seq<byte>, y: seq<byte>)
    ensures Written(Written(data, idx, x), idx + Room(data, idx, |x|), y) == Written(data, idx, x + y)
    decreases |x|
  {
    if x == [] {
      assert x + y == y;
    } else if idx < |data| {
      assert (x + y)[1..] == x[1..] + y;
      WrittenBoth(data[idx := x[0]], idx + 1, x[1..], y);
    }
  }

  // ---- Values in a vector -------------------------------------------------------------------------

  /** A value read with fewer than `n` bytes left lacks its low bytes. */
  function BigAtCursor(data: seq<byte>, idx: nat, n: nat): nat {
    ShiftLeft(BigValue(Taken(data, idx, n)), 8 * (n - Room(data, idx, n)))
  }

  function LittleAtCursor(data: seq<byte>, idx: nat, n: nat): nat {
    LittleValue(Taken(data, idx, n))
  }

  lemma BigPrefixValue(v: nat, n: nat, k: nat)
    requires k <= n
    ensures BigValue(BigBytes(v, n)[..k]) == ShiftRight(v % Radix(n), 8 * (n - k))
  {
    BigPrefix(v, n, k);
    BigRoundTrip(ShiftRight(v, 8 * (n - k)), k);
    ShiftRightMod(v, 8 * k, 8 * (n - k));
  }

  /** A big-endian write and read at one place: the bytes that do not fit are the low ones, and they
      read as zero. Of a value that is too wide only the low `n` bytes count. */
  lemma BigTruncates(data: seq<byte>, idx: nat, n: nat, v: nat, low: nat)
    requires low == 8 * (n - Room(data, idx, n))
    ensures BigAtCursor(Written(data, idx, BigBytes(v, n)), idx, n) == ShiftLeft(ShiftRight(v % Radix(n), low), low)
  {
    TakenWritten(data, idx, BigBytes(v, n));
    BigPrefixValue(v, n, Room(data, idx, n));
  }

  /** A little-endian write and read at one place: the bytes that do not fit are the high ones. */
  lemma LittleTruncates(data: seq<byte>, idx: nat, n: nat, v: nat)
    ensures LittleAtCursor(Written(data, idx, LittleBytes(v, n)), idx, n) == v % Radix(Room(data, idx, n))
  {
    TakenWritten(data, idx, LittleBytes(v, n));
    LittlePrefix(v, n, Room(data, idx, n));
    LittleRoundTrip(v, Room(data, idx, n));
  }

  // ---- Strings in a vector ------------------------------------------------------------------------

  type Text = seq<byte>

  /** `readString`: up to a zero byte, which is used up, or to the end. */
  function TextAtCursor(data: seq<byte>, idx: nat): (r: (Text, nat))
    ensures idx <= |data| ==> r.1 <= |data|
    decreases if idx < |data| then |data| - idx else 0
  {
    if idx >= |data| then ([], idx)
    else if data[idx] == 0 then ([], idx + 1)
    else var (rest, end) := TextAtCursor(data, idx + 1); ([data[idx]] + rest, end)
  }

  /** What is read is determined by where the first zero byte is. */
  lemma {:induction false} TextUnique(data: seq<byte>, idx: nat, s: Text)
    requires 0 !in s && idx + |s| <= |data|
    requires forall j :: 0 <= j < |s| ==> data[idx + j] == s[j]
    requires idx + |s| < |data| ==> data[idx + |s|] == 0
    ensures TextAtCursor(data, idx) == (s, if idx + |s| < |data| then idx + |s| + 1 else idx + |s|)
    decreases |s|
  {
    if s != [] {
      assert data[idx + 0] == s[0];
      forall j | 0 <= j < |s[1..]| ensures data[idx + 1 + j] == s[1..][j] {
        assert data[idx + (j + 1)] == s[j + 1];
      }
      TextUnique(data, idx + 1, s[1..]);
      assert s == [s[0]] + s[1..];
    }
  }

  lemma {:induction false} TextHasNoZero(data: seq<byte>, idx: nat)
    ensures 0 !in TextAtCursor(data, idx).0
    ensures TextAtCursor(data, idx).0 != [] ==> idx + |TextAtCursor(data, idx).0| <= |data|
    decreases if idx < |data| then |data| - idx else 0
  {
    if idx < |data| && data[idx] != 0 { TextHasNoZero(data, idx + 1); }
  }

  /** A string written and read at one place comes back exactly when it holds no zero byte and fits,
      with or without its terminator; and then both cursors end at the same place. */
  lemma TextRoundTripIff(data: seq<byte>, idx: nat, s: Text)
    ensures TextAtCursor(Written(data, idx, s + [0]), idx).0 == s <==> 0 !in s && Room(data, idx, |s|) == |s|
    ensures 0 !in s && Room(data, idx, |s|) == |s| ==>
      TextAtCursor(Written(data, idx, s + [0]), idx).1 == idx + Room(data, idx, |s| + 1)
  {
    var w := Written(data, idx, s + [0]);
    WrittenIs(data, idx, s + [0]);
    if 0 !in s && Room(data, idx, |s|) == |s| && idx <= |data| {
      forall j | 0 <= j < |s| ensures w[idx + j] == s[j] { assert (s + [0])[idx + j - idx] == s[j]; }
      if idx + |s| < |data| { assert w[idx + |s|] == (s + [0])[idx + |s| - idx]; }
      TextUnique(w, idx, s);
    }
    TextHasNoZero(w, idx);
  }

  // ---- Records ------------------------------------------------------------------------------------

  /** A value to be written: `Big` and `Little` carry the number of bytes. */
  datatype Field = Byte(b: byte) | Big(n: nat, v: nat) | Little(n: nat, v: nat) | Str(s: Text)

  /** The widths there are, and what their parameter types hold: 24-bit values travel in 32 bits. */
  predicate FieldOk(f: Field) {
    match f
    case Byte(_) => true
    case Big(n, v) => (n == 2 || n == 3 || n == 4 || n == 8) && v < Radix(if n == 3 then 4 else n)
    case Little(n, v) => (n == 2 || n == 3 || n == 4) && v < Radix(if n == 3 then 4 else n)
    case Str(s) => 0 !in s
  }

  function Encoded(f: Field): seq<byte> {
    match f
    case Byte(b) => [b]
    case Big(n, v) => BigBytes(v, n)
    case Little(n, v) => LittleBytes(v, n)
    case Str(s) => s + [0]
  }

  /** The low `n` bytes of `v`. */
  function LowBytes(v: nat, n: nat): nat {
    if n == 0 then 0 else v % 256 + 256 * LowBytes(v / 256, n - 1)
  }

  lemma {:induction false} LowBytesAre(v: nat, n: nat)
    ensures LowBytes(v, n) == v % Radix(n)
  {
    if n > 0 {
      LowBytesAre(v / 256, n - 1);
      RadixNext(n - 1);
      ModStep(v, Radix(n - 1));
    }
  }

  function Fitting(n: nat, room: nat): (k: nat)
    ensures k <= n && k <= room && (k == n || k == room)
  {
    if n <= room then n else room
  }

  /** What reading this field back gives when `room` bytes are left from where it starts: a big-endian
      value without the low bytes that did not fit, a little-endian one without the high bytes, a string
      without its end. Of a 24-bit value, 24 bits. */
  function Seen(f: Field, room: nat): Field {
    match f
    case Byte(b) => if room > 0 then f else Byte(0)
    case Big(n, v) =>
      var low := 8 * (n - Fitting(n, room));
      Big(n, ShiftLeft(ShiftRight(LowBytes(v, n), low), low))
    case Little(n, v) => Little(n, LowBytes(v, Fitting(n, room)))
    case Str(s) => Str(s[..Fitting(|s|, room)])
  }

  /** A read of the kind of value `f` is, and the cursor after it. */
  function ReadField(data: seq<byte>, idx: nat, f: Field): (Field, nat) {
    match f
    case Byte(_) => if idx >= |data| then (Byte(0), idx) else (Byte(data[idx]), idx + 1)
    case Big(n, _) => (Big(n, BigAtCursor(data, idx, n)), idx + Room(data, idx, n))
    case Little(n, _) => (Little(n, LittleAtCursor(data, idx, n)), idx + Room(data, idx, n))
    case Str(_) => (Str(TextAtCursor(data, idx).0), TextAtCursor(data, idx).1)
  }

  function EncodedAll(fs: seq<Field>): seq<byte> {
    if fs == [] then [] else Encoded(fs[0]) + EncodedAll(fs[1..])
  }

  function SeenAll(fs: seq<Field>, room: nat): (r: seq<Field>)
    ensures |r| == |fs|
    decreases |fs|
  {
    if fs == [] then [] else
    [Seen(fs[0], room)] + SeenAll(fs[1..], room - Fitting(|Encoded(fs[0])|, room))
  }

  function ReadAll(data: seq<byte>, idx: nat, fs: seq<Field>): (seq<Field>, nat)
    decreases |fs|
  {
    if fs == [] then ([], idx) else
    var (f, next) := ReadField(data, idx, fs[0]);
    var (rest, end) := ReadAll(data, next, fs[1..]);
    ([f] + rest, end)
  }

  predicate FieldsOk(fs: seq<Field>) {
    forall i :: 0 <= i < |fs| ==> FieldOk(fs[i])
  }

  /** How many bytes there are from `idx` on. */
  function Left(data: seq<byte>, idx: nat): nat {
    if idx <= |data| then |data| - idx else 0
  }

  lemma RoomIsFitting(data: seq<byte>, idx: nat, n: nat)
    ensures Room(data, idx, n) == Fitting(n, Left(data, idx))
    ensures Left(data, idx + Room(data, idx, n)) == Left(data, idx) - Room(data, idx, n)
  {
  }

  lemma HoldsBoth(data: seq<byte>, idx: nat, x: seq<byte>, y: seq<byte>)
    requires Holds(data, idx, x + y)
    ensures Holds(data, idx, x) && Holds(data, idx + Room(data, idx, |x|), y)
    ensures Room(data, idx, |x + y|) == Room(data, idx, |x|) + Room(data, idx + Room(data, idx, |x|), |y|)
  {
    var at := idx + Room(data, idx, |x|);
    forall i | idx <= i < at ensures data[i] == x[i - idx] { assert data[i] == (x + y)[i - idx]; }
    forall i | at <= i < at + Room(data, at, |y|) ensures data[i] == y[i - at] { assert data[i] == (x + y)[i - idx]; }
  }

  /** Where a record that is at `idx` ends, and how much room it has. */
  predicate Bounds(data: seq<byte>, idx: nat, s: seq<byte>, room: nat, end: nat) {
    room == Left(data, idx) && end == idx + Room(data, idx, |s|)
  }

  lemma BigSeen(data: seq<byte>, idx: nat, n: nat, v: nat)
    requires Holds(data, idx, BigBytes(v, n))
    ensures Big(n, BigAtCursor(data, idx, n)) == Seen(Big(n, v), Left(data, idx))
  {
    RoomIsFitting(data, idx, n);
    TakenHeld(data, idx, BigBytes(v, n));
    BigPrefixValue(v, n, Room(data, idx, n));
    LowBytesAre(v, n);
  }

  lemma LittleSeen(data: seq<byte>, idx: nat, n: nat, v: nat)
    requires Holds(data, idx, LittleBytes(v, n))
    ensures Little(n, LittleAtCursor(data, idx, n)) == Seen(Little(n, v), Left(data, idx))
  {
    RoomIsFitting(data, idx, n);
    TakenHeld(data, idx, LittleBytes(v, n));
    LittlePrefix(v, n, Room(data, idx, n));
    LittleRoundTrip(v, Room(data, idx, n));
    LowBytesAre(v, Room(data, idx, n));
  }

  lemma StrSeen(data: seq<byte>, idx: nat, s: Text)
    requires 0 !in s && Holds(data, idx, s + [0])
    ensures TextAtCursor(data, idx) == (s[..Fitting(|s|, Left(data, idx))], idx + Room(data, idx, |s| + 1))
  {
    var k := Fitting(|s|, Left(data, idx));
    if idx <= |data| {
      forall j | 0 <= j < k ensures data[idx + j] == s[..k][j] { assert data[idx + j] == (s + [0])[idx + j - idx]; }
      if idx + k < |data| { assert data[idx + k] == (s + [0])[idx + k - idx]; }
      TextUnique(data, idx, s[..k]);
    }
  }

  /** One field, anywhere in a vector, reads as far as it is there and leaves the cursor behind it. */
  lemma FieldSeen(data: seq<byte>, idx: nat, f: Field, room: nat, next: nat)
    requires FieldOk(f) && Holds(data, idx, Encoded(f)) && Bounds(data, idx, Encoded(f), room, next)
    ensures ReadField(data, idx, f) == (Seen(f, room), next)
  {
    match f
    case Byte(b) => if idx < |data| { assert data[idx] == [b][idx - idx]; }
    case Big(n, v) => BigSeen(data, idx, n, v);
    case Little(n, v) => LittleSeen(data, idx, n, v);
    case Str(s) => StrSeen(data, idx, s);
  }

  lemma ReadFirst(data: seq<byte>, idx: nat, fs: seq<Field>, room: nat, next: nat, left: nat, end: nat)
    requires fs != [] && left == room - Fitting(|Encoded(fs[0])|, room)
    requires ReadField(data, idx, fs[0]) == (Seen(fs[0], room), next)
    requires ReadAll(data, next, fs[1..]) == (SeenAll(fs[1..], left), end)
    ensures ReadAll(data, idx, fs) == (SeenAll(fs, room), end)
  {
  }

  lemma SeenFirst(fs: seq<Field>, room: nat, x: seq<byte>, left: nat)
    requires fs != [] && x == Encoded(fs[0]) && left == room - Fitting(|x|, room)
    ensures SeenAll(fs, room) == [Seen(fs[0], room)] + SeenAll(fs[1..], left)
  {
  }

  /** A record, anywhere in a vector, reads as far as it is there, with one cursor that ends behind it. */
  lemma {:induction false} RecordSeen(data: seq<byte>, idx: nat, fs: seq<Field>, s: seq<byte>, room: nat, end: nat)
    requires FieldsOk(fs) && s == EncodedAll(fs) && Holds(data, idx, s) && Bounds(data, idx, s, room, end)
    ensures ReadAll(data, idx, fs) == (SeenAll(fs, room), end)
    decreases |fs|
  {
    if fs != [] { FirstSeen(data, idx, fs, Encoded(fs[0]), EncodedAll(fs[1..]), room, end); }
  }

  lemma HoldsFirst(data: seq<byte>, idx: nat, x: seq<byte>, y: seq<byte>, room: nat, end: nat)
      returns (next: nat, left: nat)
    requires Holds(data, idx, x + y) && Bounds(data, idx, x + y, room, end)
    ensures Holds(data, idx, x) && Holds(data, next, y) && Bounds(data, next, y, left, end)
    ensures Bounds(data, idx, x, room, next) && left == room - Fitting(|x|, room)
  {
    next := idx + Room(data, idx, |x|);
    HoldsBoth(data, idx, x, y);
    RoomIsFitting(data, idx, |x|);
    left := Left(data, next);
  }

  lemma {:induction false} FirstSeen(data: seq<byte>, idx: nat, fs: seq<Field>, x: seq<byte>, y: seq<byte>,
                                     room: nat, end: nat)
    requires FieldsOk(fs) && fs != [] && x == Encoded(fs[0]) && y == EncodedAll(fs[1..])
    requires Holds(data, idx, x + y) && Bounds(data, idx, x + y, room, end)
    ensures ReadAll(data, idx, fs) == (SeenAll(fs, room), end)
    decreases |fs|, 0
  {
    var next, left := HoldsFirst(data, idx, x, y, room, end);
    FieldSeen(data, idx, fs[0], room, next);
    RecordSeen(data, next, fs[1..], y, left, end);
    ReadFirst(data, idx, fs, room, next, left, end);
  }

  /** What reading a field back gives when it fits: all of it, but for the high byte of a 24-bit one. */
  function Kept(f: Field): Field {
    match f
    case Big(n, v) => if n == 3 then Big(3, v % 0x100_0000) else f
    case Little(n, v) => if n == 3 then Little(3, v % 0x100_0000) else f
    case _ => f
  }

  function KeptAll(fs: seq<Field>): (r: seq<Field>)
    ensures |r| == |fs|
  {
    if fs == [] then [] else [Kept(fs[0])] + KeptAll(fs[1..])
  }

  lemma KeptMod(n: nat, v: nat)
    requires n == 2 || n == 3 || n == 4 || n == 8
    requires v < Radix(if n == 3 then 4 else n)
    ensures v % Radix(n) == if n == 3 then v % 0x100_0000 else v
  {
    if n == 3 {
      RadixNext(0);
      RadixNext(1);
      RadixNext(2);
    } else {
      SmallMod(v, Radix(n));
    }
  }

  lemma FittingSeen(f: Field, room: nat)
    requires FieldOk(f) && |Encoded(f)| <= room
    ensures Seen(f, room) == Kept(f)
  {
    match f
    case Byte(_) =>
    case Big(n, v) => KeptMod(n, v); LowBytesAre(v, n);
    case Little(n, v) => KeptMod(n, v); LowBytesAre(v, n);
    case Str(s) => assert s[..|s|] == s;
  }

  /** A record with room for it keeps all its fields. */
  lemma {:induction false} RecordFits(fs: seq<Field>, room: nat)
    requires FieldsOk(fs) && |EncodedAll(fs)| <= room
    ensures SeenAll(fs, room) == KeptAll(fs)
    decreases |fs|
  {
    if fs != [] {
      FittingSeen(fs[0], room);
      RecordFits(fs[1..], room - |Encoded(fs[0])|);
      SeenFirst(fs, room, Encoded(fs[0]), room - |Encoded(fs[0])|);
    }
  }

  lemma AppendHolds(data: seq<byte>, s: seq<byte>)
    ensures data <= data + s && Holds(data + s, |data|, s) && Left(data + s, |data|) == |s|
    ensures Room(data + s, |data|, |s|) == |s|
  {
  }

  /** Appending a record keeps what was there, and reading from where it was appended gives the record
      back and ends at the end of the vector. */
  lemma AppendedReadsBack(data: seq<byte>, fs: seq<Field>)
    requires FieldsOk(fs)
    ensures data <= data + EncodedAll(fs)
    ensures ReadAll(data + EncodedAll(fs), |data|, fs) == (KeptAll(fs), |data + EncodedAll(fs)|)
  {
    var s := EncodedAll(fs);
    AppendHolds(data, s);
    RecordSeen(data + s, |data|, fs, s, |s|, |data + s|);
    RecordFits(fs, |s|);
  }

  /** Fields written one after the other with one cursor. */
  function WriteAll(data: seq<byte>, idx: nat, fs: seq<Field>): seq<byte>
    decreases |fs|
  {
    if fs == [] then data else
    WriteAll(Written(data, idx, Encoded(fs[0])), idx + Room(data, idx, |Encoded(fs[0])|), fs[1..])
  }

  lemma WrittenHolds(data: seq<byte>, idx: nat, s: seq<byte>)
    ensures Holds(Written(data, idx, s), idx, s)
  {
    WrittenIs(data, idx, s);
  }

  lemma WriteFirst(data: seq<byte>, idx: nat, fs: seq<Field>, x: seq<byte>, next: nat)
    requires fs != [] && x == Encoded(fs[0]) && next == idx + Room(data, idx, |x|)
    ensures WriteAll(data, idx, fs) == WriteAll(Written(data, idx, x), next, fs[1..])
  {
  }

  /** Writing the fields one by one is writing their bytes, as far as there is room for them. */
  lemma {:induction false} WriteAllIs(data: seq<byte>, idx: nat, fs: seq<Field>, s: seq<byte>)
    requires s == EncodedAll(fs)
    ensures WriteAll(data, idx, fs) == Written(data, idx, s)
    decreases |fs|
  {
    if fs != [] { FirstThenRest(data, idx, fs, Encoded(fs[0]), EncodedAll(fs[1..])); }
  }

  lemma {:induction false} FirstThenRest(data: seq<byte>, idx: nat, fs: seq<Field>, x: seq<byte>, y: seq<byte>)
    requires fs != [] && x == Encoded(fs[0]) && y == EncodedAll(fs[1..])
    ensures WriteAll(data, idx, fs) == Written(data, idx, x + y)
    decreases |fs|, 0
  {
    var next := idx + Room(data, idx, |x|);
    WriteFirst(data, idx, fs, x, next);
    WriteAllIs(Written(data, idx, x), next, fs[1..], y);
    WrittenBoth(data, idx, x, y);
  }

  lemma WrittenSeen(data: seq<byte>, idx: nat, fs: seq<Field>, s: seq<byte>, room: nat, end: nat)
    requires FieldsOk(fs) && s == EncodedAll(fs) && Bounds(data, idx, s, room, end)
    ensures ReadAll(Written(data, idx, s), idx, fs) == (SeenAll(fs, room), end)
  {
    WrittenHolds(data, idx, s);
    RecordSeen(Written(data, idx, s), idx, fs, s, room, end);
  }

  /** A record written into any vector at any place changes only the bytes it has room for, and reads as
      far as it fits: all of it if it fits. */
  lemma RecordRoundTrip(data: seq<byte>, idx: nat, fs: seq<Field>, room: nat, end: nat)
    requires FieldsOk(fs) && Bounds(data, idx, EncodedAll(fs), room, end)
    ensures IsWritten(data, idx, EncodedAll(fs), WriteAll(data, idx, fs))
    ensures ReadAll(WriteAll(data, idx, fs), idx, fs) == (SeenAll(fs, room), end)
    ensures |EncodedAll(fs)| <= room ==> SeenAll(fs, room) == KeptAll(fs)
  {
    var s := EncodedAll(fs);
    WriteAllIs(data, idx, fs, s);
    WrittenIs(data, idx, s);
    WrittenSeen(data, idx, fs, s, room, end);
    if |s| <= room { RecordFits(fs, room); }
  }

  // ---- Steps of the loops -------------------------------------------------------------------------

  /** One round of the big-endian read, with `left` bytes to come. */
  lemma BigReadStep(s: seq<byte>, x: byte, left: nat)
    ensures Or(ShiftLeft(BigValue(s), 8 * (left + 1)), ShiftLeft(x, 8 * left)) == ShiftLeft(BigValue(s + [x]), 8 * left)
  {
    ShiftLeftBelow(x, 8 * left);
    OrDisjoint(BigValue(s), ShiftLeft(x, 8 * left), 8 * (left + 1));
    ShiftByte(BigValue(s), left);
    ShiftLeftSum(256 * BigValue(s), x, 8 * left);
    BigAppend(s, x);
  }

  lemma BigRound(data: seq<byte>, start: nat, i: nat, left: nat)
    requires start + i < |data|
    ensures Or(ShiftLeft(BigValue(Taken(data, start, i)), 8 * (left + 1)), ShiftLeft(data[start + i], 8 * left))
         == ShiftLeft(BigValue(Taken(data, start, i + 1)), 8 * left)
  {
    BigReadStep(Taken(data, start, i), data[start + i], left);
    TakenNext(data, start, i);
  }

  /** One round of the little-endian read. */
  lemma LittleReadStep(s: seq<byte>, x: byte)
    ensures Or(LittleValue(s), ShiftLeft(x, 8 * |s|)) == LittleValue(s + [x])
  {
    LittleAppend(s, x);
    OrDisjoint(x, LittleValue(s), 8 * |s|);
  }

  lemma TakenNext(data: seq<byte>, idx: nat, k: nat)
    requires idx + k < |data|
    ensures Taken(data, idx, k + 1) == Taken(data, idx, k) + [data[idx + k]]
  {
  }

  lemma TakenEnd(data: seq<byte>, idx: nat, k: nat, n: nat)
    requires Room(data, idx, n) == k
    ensures Taken(data, idx, n) == Taken(data, idx, k)
  {
  }

  lemma TextStep(s: Text, data: seq<byte>, at: nat)
    requires at < |data| && data[at] != 0
    ensures s + TextAtCursor(data, at).0 == (s + [data[at]]) + TextAtCursor(data, at + 1).0
    ensures TextAtCursor(data, at).1 == TextAtCursor(data, at + 1).1
  {
  }

  // ---- The byte vector ----------------------------------------------------------------------------

  class Bytes {
    var data: seq<byte>

    constructor ()
      ensures data == []
    {
      data := [];
    }

    method ReadByte(idx: nat) returns (b: byte, next: nat)
      ensures (Byte(b), next) == ReadField(data, idx, Byte(0))
    {
      if idx >= |data| { return 0, idx; }
      return data[idx], idx + 1;
    }

    method WriteByte(idx: nat, b: byte) returns (next: nat)
      modifies this
      ensures data == Written(old(data), idx, [b]) && next == idx + Room(old(data), idx, 1)
    {
      if idx >= |data| { return idx; }
      data := data[idx := b];
      next := idx + 1;
      WrittenUnique(old(data), idx, [b], data);
    }

    /** The shift below zero after the last round is not used. */
    method ReadVal(start: nat, n: nat) returns (v: nat, idx: nat)
      ensures v == BigAtCursor(data, start, n) && idx == start + Room(data, start, n)
    {
      v, idx := 0, start;
      var i, shift := 0, (n - 1) * 8;
      ShiftZero(8 * n);
      while i < n && idx < |data|
        invariant 0 <= i <= n && idx == start + i && shift == (n - 1 - i) * 8
        invariant i <= Room(data, start, n)
        invariant v == ShiftLeft(BigValue(Taken(data, start, i)), 8 * (n - i))
      {
        BigRound(data, start, i, n - 1 - i);
        v := Or(v, ShiftLeft(data[idx], shift));
        i, idx, shift := i + 1, idx + 1, shift - 8;
      }
      TakenEnd(data, start, i, n);
    }

    method ReadValLE(start: nat, n: nat) returns (v: nat, idx: nat)
      ensures v == LittleAtCursor(data, start, n) && idx == start + Room(data, start, n)
    {
      v, idx := 0, start;
      var i, shift := 0, 0;
      while i < n && idx < |data|
        invariant 0 <= i <= n && idx == start + i && shift == 8 * i
        invariant i <= Room(data, start, n)
        invariant v == LittleValue(Taken(data, start, i))
      {
        LittleReadStep(Taken(data, start, i), data[idx]);
        TakenNext(data, start, i);
        v := Or(v, ShiftLeft(data[idx], shift));
        i, idx, shift := i + 1, idx + 1, shift + 8;
      }
      TakenEnd(data, start, i, n);
    }

    method WriteVal(start: nat, n: nat, v: nat) returns (idx: nat)
      modifies this
      ensures data == Written(old(data), start, BigBytes(v, n)) && idx == start + Room(old(data), start, n)
    {
      idx := start;
      var i, shift := 0, (n - 1) * 8;
      while i < n && idx < |data|
        invariant 0 <= i <= n && idx == start + i && shift == (n - 1 - i) * 8
        invariant |data| == |old(data)| && i <= Room(data, start, n)
        invariant forall j :: 0 <= j < i ==> data[start + j] == BigBytes(v, n)[j]
        invariant forall j :: 0 <= j < |data| && (j < start || idx <= j) ==> data[j] == old(data)[j]
      {
        BigAt(v, n, i);
        data := data[idx := ShiftRight(v, shift) % 256];
        i, idx, shift := i + 1, idx + 1, shift - 8;
      }
      WrittenUnique(old(data), start, BigBytes(v, n), data);
    }

    method WriteValLE(start: nat, n: nat, v: nat) returns (idx: nat)
      modifies this
      ensures data == Written(old(data), start, LittleBytes(v, n)) && idx == start + Room(old(data), start, n)
    {
      idx := start;
      var i, shift := 0, 0;
      while i < n && idx < |data|
        invariant 0 <= i <= n && idx == start + i && shift == 8 * i
        invariant |data| == |old(data)| && i <= Room(data, start, n)
        invariant forall j :: 0 <= j < i ==> data[start + j] == LittleBytes(v, n)[j]
        invariant forall j :: 0 <= j < |data| && (j < start || idx <= j) ==> data[j] == old(data)[j]
      {
        LittleAt(v, n, i);
        data := data[idx := ShiftRight(v, shift) % 256];
        i, idx, shift := i + 1, idx + 1, shift + 8;
      }
      WrittenUnique(old(data), start, LittleBytes(v, n), data);
    }

    method ReadString(start: nat) returns (s: Text, idx: nat)
      ensures (s, idx) == TextAtCursor(data, start)
    {
      s, idx := [], start;
      var b;
      b, idx := ReadByte(idx);
      ghost var goal := TextAtCursor(data, start);
      ghost var at: nat := start;
      assert goal.0 == [] + goal.0;
      while b != 0
        invariant at < |data| || b == 0
        invariant (Byte(b), idx) == ReadField(data, at, Byte(0))
        invariant goal.0 == s + TextAtCursor(data, at).0 && goal.1 == TextAtCursor(data, at).1
        decreases if b == 0 then 0 else |data| - at
      {
        TextStep(s, data, at);
        s := s + [b];
        at := idx;
        b, idx := ReadByte(idx);
      }
      assert TextAtCursor(data, at) == ([], idx) && s + [] == s;
    }

    method WriteString(start: nat, s: Text) returns (idx: nat)
      modifies this
      ensures data == Written(old(data), start, s + [0]) && idx == start + Room(old(data), start, |s| + 1)
    {
      idx := start;
      for i := 0 to |s|
        invariant data == Written(old(data), start, s[..i]) && idx == start + Room(old(data), start, i)
      {
        WrittenNext(old(data), start, s[..i], s[i]);
        assert s[..i + 1] == s[..i] + [s[i]];
        idx := WriteByte(idx, s[i]);
      }
      assert s[..|s|] == s;
      WrittenNext(old(data), start, s, 0);
      idx := WriteByte(idx, 0);
    }

    method AppendByte(b: byte)
      modifies this
      ensures data == old(data) + Encoded(Byte(b))
    {
      data := data + [b];
    }

    /** Room is made with zeroes, which are then written over. */
    method AppendVal(n: nat, v: nat)
      modifies this
      ensures data == old(data) + Encoded(Big(n, v))
    {
      var idx := |data|;
      PushZeroes(n);
      WrittenAtEnd(old(data), data, BigBytes(v, n));
      var _ := WriteVal(idx, n, v);
    }

    method AppendValLE(n: nat, v: nat)
      modifies this
      ensures data == old(data) + Encoded(Little(n, v))
    {
      var idx := |data|;
      PushZeroes(n);
      WrittenAtEnd(old(data), data, LittleBytes(v, n));
      var _ := WriteValLE(idx, n, v);
    }

    method PushZeroes(n: nat)
      modifies this
      ensures |data| == |old(data)| + n && old(data) <= data
    {
      for i := 0 to n
        invariant |data| == |old(data)| + i && old(data) <= data
      {
        data := data + [0];
      }
    }
  }

  lemma WrittenNext(data: seq<byte>, idx: nat, s: seq<byte>, b: byte)
    ensures var w := Written(data, idx, s); var at := idx + Room(data, idx, |s|);
      && Written(w, at, [b]) == Written(data, idx, s + [b])
      && at + Room(w, at, 1) == idx + Room(data, idx, |s| + 1)
  {
    WrittenBoth(data, idx, s, [b]);
  }

  lemma WrittenAtEnd(data: seq<byte>, zeroed: seq<byte>, s: seq<byte>)
    requires data <= zeroed && |zeroed| == |data| + |s|
    ensures Written(zeroed, |data|, s) == data + s
  {
    WrittenUnique(zeroed, |data|, s, data + s);
  }
}
