/** The records the pass writes beside the program, one for each counter, and their reader. */
module ProfileLog {
  type Byte = bv8

  /** A profile, as its bytes in memory, and the name of its function. */
  datatype Entry = Entry(data: seq<Byte>, name: seq<Byte>)

  /** What the reader makes of a record: whether its checksum matched, which it only reports. */
  datatype Read = Read(entry: Entry, matched: bool)

  /** `sizeof(ProfileData)`, whatever it is. */
  datatype Layout = Layout(size: nat)

  ghost predicate Fits(l: Layout, e: Entry) {
    |e.data| == l.size && |e.name| < 0x1_0000_0000_0000_0000
  }

  // ---- Checksum --------------------------------------------------------------

  /** A `char` widened to an `int`. */
  function Widen(b: Byte): bv32 {
    if b < 0x80 then b as bv32 else 0xFFFF_FF00 | (b as bv32)
  }

  function Mix(s: bv32, b: Byte): bv32 {
    s ^ Widen(b)
  }

  ghost function Xor(data: seq<Byte>): bv32 {
    if data == [] then 0 else Mix(Xor(data[..|data| - 1]), data[|data| - 1])
  }

  method Checksum(data: seq<Byte>) returns (sum: bv32)
    ensures sum == Xor(data)
  {
    hide Mix;
    sum := 0;
    for i := 0 to |data|
      invariant sum == Xor(data[..i])
    {
      assert data[..i + 1][..i] == data[..i];
      sum := Mix(sum, data[i]);
    }
    assert data[..|data|] == data;
  }

  lemma WidenInjective(a: Byte, b: Byte)
    ensures Widen(a) == Widen(b) <==> a == b
  {
    assert Widen(a) & 0xFF == a as bv32;
    assert Widen(b) & 0xFF == b as bv32;
  }

  lemma MixCommutes(s: bv32, a: Byte, b: Byte)
    ensures Mix(Mix(s, a), b) == Mix(Mix(s, b), a)
    ensures Mix(Mix(s, a), a) == s
  {
    hide Widen;
  }

  lemma MixInjective(s: bv32, a: Byte, b: Byte)
    ensures Mix(s, a) == Mix(s, b) <==> a == b
  {
    WidenInjective(a, b);
    hide Widen;
    assert s ^ Mix(s, a) == Widen(a) && s ^ Mix(s, b) == Widen(b);
  }

  /** Taking out byte `i` and putting in another changes the checksum by just these two. */
  lemma {:induction false} XorUpdate(data: seq<Byte>, i: nat, b: Byte)
    requires i < |data|
    ensures Xor(data[i := b]) == Mix(Mix(Xor(data), data[i]), b)
  {
    hide Mix;
    var n := |data| - 1;
    var front, last := data[..n], data[n];
    if i == n {
      assert data[i := b][..n] == front;
      MixCommutes(Xor(front), last, b);
    } else {
      assert data[i := b][..n] == front[i := b];
      XorUpdate(front, i, b);
      MixCommutes(Mix(Xor(front), data[i]), b, last);
      MixCommutes(Xor(front), data[i], last);
    }
  }

  /** A record with one byte changed no longer has its checksum. */
  lemma OneByteIsNoticed(data: seq<Byte>, i: nat, b: Byte)
    requires i < |data|
    ensures Xor(data[i := b]) == Xor(data) <==> b == data[i]
  {
    hide Mix;
    XorUpdate(data, i, b);
    MixInjective(Mix(Xor(data), data[i]), data[i], b);
    MixCommutes(Xor(data), data[i], data[i]);
  }

  /** A checksum read as the `int` that it is. */
  function Signed(sum: bv32): int {
    if sum < 0x8000_0000 then sum as int else sum as int - 0x1_0000_0000
  }

  /** The checksum of one byte is the byte as a signed number; more bytes combine by exclusive or. */
  lemma OneByteChecksum(b: Byte)
    ensures Signed(Xor([b])) == if b < 0x80 then b as int else b as int - 0x100
  {
    assert [b][..0] == [];
    assert Xor([b]) == Widen(b);
    SignedWiden(b);
  }

  lemma SignedWiden(b: Byte)
    ensures Signed(Widen(b)) == if b < 0x80 then b as int else b as int - 0x100
  {
    var x: bv32 := Widen(b);
    assert 0x80 <= b ==> x == 0xFFFF_FF00 + (b as bv32) && 0xFFFF_FF80 <= x;
    assert b < 0x80 ==> x == b as bv32 && x < 0x80;
  }

  lemma {:induction false} ChecksumCombines(a: seq<Byte>, b: seq<Byte>)
    ensures Xor(a + b) == Xor(a) ^ Xor(b)
  {
    hide Widen;
    if b == [] {
      assert a + b == a;
    } else {
      var front, last := b[..|b| - 1], b[|b| - 1];
      assert (a + b)[..|a + b| - 1] == a + front;
      ChecksumCombines(a, front);
      XorAssociates(Xor(a), Xor(front), Widen(last));
    }
  }

  lemma XorAssociates(x: bv32, y: bv32, z: bv32)
    ensures (x ^ y) ^ z == x ^ (y ^ z)
  {
  }

  // ---- Numbers as bytes ------------------------------------------------------

  /** The low `n` bytes of a number, lowest first. */
  function Bytes(x: nat, n: nat): (bs: seq<Byte>)
    ensures |bs| == n
  {
    if n == 0 then [] else [(x % 256) as Byte] + Bytes(x / 256, n - 1)
  }

  function Number(bs: seq<Byte>): nat {
    if bs == [] then 0 else bs[0] as nat + 256 * Number(bs[1..])
  }

  function Power(n: nat): nat {
    if n == 0 then 1 else 256 * Power(n - 1)
  }

  lemma {:induction false} NumberOfBytes(x: nat, n: nat)
    requires x < Power(n)
    ensures Number(Bytes(x, n)) == x
  {
    if n != 0 {
      NumberOfBytes(x / 256, n - 1);
      assert Bytes(x, n)[1..] == Bytes(x / 256, n - 1);
      assert ((x % 256) as Byte) as nat == x % 256;
    }
  }

  lemma Powers()
    ensures Power(8) == 0x1_0000_0000_0000_0000
  {
    assert Power(4) == 256 * (256 * (256 * (256 * Power(0))));
    assert Power(8) == 256 * (256 * (256 * (256 * Power(4))));
  }

  // ---- Writing and reading ---------------------------------------------------

  function Check(sum: bv32): seq<Byte> {
    [(sum & 0xFF) as Byte, ((sum >> 8) & 0xFF) as Byte, ((sum >> 16) & 0xFF) as Byte, (sum >> 24) as Byte]
  }

  ghost function Written(e: Entry): seq<Byte> {
    e.data + Check(Xor(e.data)) + Bytes(|e.name|, 8) + e.name
  }

  ghost function AllWritten(es: seq<Entry>): seq<Byte> {
    if es == [] then [] else Written(es[0]) + AllWritten(es[1..])
  }

  /** Appends one record to the log. */
  method Write(log: seq<Byte>, e: Entry) returns (r: seq<Byte>)
    ensures r == log + Written(e)
  {
    var sum := Checksum(e.data);
    r := log + e.data;
    r := r + Check(sum);
    r := r + Bytes(|e.name|, 8);
    r := r + e.name;
  }

  /** The length of the record at the start of `bs`, if all of it is there. */
  function Length(l: Layout, bs: seq<Byte>): nat {
    if |bs| < l.size + 12 then l.size + 12 else l.size + 12 + Number(bs[l.size + 4..l.size + 12])
  }

  function Decode(l: Layout, bs: seq<Byte>): Entry
    requires Length(l, bs) <= |bs|
  {
    Entry(bs[..l.size], bs[l.size + 12..Length(l, bs)])
  }

  ghost predicate Matches(l: Layout, bs: seq<Byte>)
    requires Length(l, bs) <= |bs|
  {
    Check(Xor(bs[..l.size])) == bs[l.size..l.size + 4]
  }

  /** The complete records at the start of `bs`. */
  ghost function Parsed(l: Layout, bs: seq<Byte>): seq<Read>
    decreases |bs|
  {
    if |bs| < Length(l, bs) then []
    else [Read(Decode(l, bs), Matches(l, bs))] + Parsed(l, bs[Length(l, bs)..])
  }

  method ReadLog(l: Layout, log: seq<Byte>) returns (rs: seq<Read>)
    ensures rs == Parsed(l, log)
  {
    rs := [];
    var pos := 0;
    assert log[0..] == log;
    while pos + Length(l, log[pos..]) <= |log|
      invariant pos <= |log| && Parsed(l, log) == rs + Parsed(l, log[pos..])
      decreases |log| - pos
    {
      var bs := log[pos..];
      var n := Length(l, bs);
      var sum := Checksum(bs[..l.size]);
      ParsedNext(l, bs);
      hide *;
      rs := rs + [Read(Decode(l, bs), Check(sum) == bs[l.size..l.size + 4])];
      assert bs[n..] == log[pos + n..];
      pos := pos + n;
    }
  }

  lemma ParsedNext(l: Layout, bs: seq<Byte>)
    requires Length(l, bs) <= |bs|
    ensures l.size + 12 <= Length(l, bs)
    ensures Parsed(l, bs) ==
      [Read(Decode(l, bs), Check(Xor(bs[..l.size])) == bs[l.size..l.size + 4])] + Parsed(l, bs[Length(l, bs)..])
  {
    hide Xor, Check, Number;
  }

  lemma Laid(l: Layout, e: Entry, rest: seq<Byte>)
    requires Fits(l, e)
    ensures var bs := Written(e) + rest;
      Length(l, bs) == |Written(e)| <= |bs| && Decode(l, bs) == e && Matches(l, bs) && bs[|Written(e)|..] == rest
  {
    var bs := Written(e) + rest;
    Powers();
    NumberOfBytes(|e.name|, 8);
    assert bs[..l.size] == e.data;
    assert bs[l.size..l.size + 4] == Check(Xor(e.data));
    assert bs[l.size + 4..l.size + 12] == Bytes(|e.name|, 8);
    assert bs[l.size + 12..|Written(e)|] == e.name;
  }

  ghost predicate AllFit(l: Layout, es: seq<Entry>) {
    forall e :: e in es ==> Fits(l, e)
  }

  /** Records are read back as they were written, and every checksum matches. */
  lemma {:induction false} RecordsReadBack(l: Layout, es: seq<Entry>)
    requires AllFit(l, es)
    ensures Parsed(l, AllWritten(es)) == seq(|es|, k requires 0 <= k < |es| => Read(es[k], true))
  {
    if es != [] {
      assert es[0] in es && forall e :: e in es[1..] ==> e in es;
      Laid(l, es[0], AllWritten(es[1..]));
      RecordsReadBack(l, es[1..]);
    }
  }

  /** A record in which one byte of the profile was changed is read as changed, and reported. */
  lemma DamageIsReported(l: Layout, e: Entry, i: nat, b: Byte, rest: seq<Byte>)
    requires Fits(l, e) && i < l.size && b != e.data[i]
    ensures var bs := (Written(e) + rest)[i := b];
      Parsed(l, bs) == [Read(Entry(e.data[i := b], e.name), false)] + Parsed(l, rest)
  {
    var bs := (Written(e) + rest)[i := b];
    Powers();
    NumberOfBytes(|e.name|, 8);
    assert bs[..l.size] == e.data[i := b];
    assert bs[l.size..l.size + 4] == Check(Xor(e.data));
    assert bs[l.size + 4..l.size + 12] == Bytes(|e.name|, 8);
    assert bs[l.size + 12..|Written(e)|] == e.name;
    assert bs[|Written(e)|..] == rest;
    OneByteIsNoticed(e.data, i, b);
    ChecksDiffer(Xor(e.data), Xor(e.data[i := b]));
  }

  function Join(b: seq<Byte>): bv32
    requires |b| == 4
  {
    (b[0] as bv32) | ((b[1] as bv32) << 8) | ((b[2] as bv32) << 16) | ((b[3] as bv32) << 24)
  }

  lemma JoinCheck(x: bv32)
    ensures Join(Check(x)) == x
  {
  }

  lemma ChecksDiffer(x: bv32, y: bv32)
    ensures Check(x) == Check(y) <==> x == y
  {
    JoinCheck(x);
    JoinCheck(y);
  }

  /** Where the parts of a record lie: the structure, its checksum in four bytes, the length of the name in
      eight, the lowest first in both, and the name. */
  lemma RecordLayout(l: Layout, e: Entry)
    requires Fits(l, e)
    ensures var bs := Written(e);
      && |bs| == l.size + 12 + |e.name| && bs[..l.size] == e.data
      && Join(bs[l.size..l.size + 4]) == Xor(e.data)
      && Number(bs[l.size + 4..l.size + 12]) == |e.name| && bs[l.size + 12..] == e.name
  {
    var bs := Written(e);
    Powers();
    NumberOfBytes(|e.name|, 8);
    JoinCheck(Xor(e.data));
    hide Number, Check, Join, Xor, Bytes;
    assert bs[l.size..l.size + 4] == Check(Xor(e.data));
    assert bs[l.size + 4..l.size + 12] == Bytes(|e.name|, 8);
  }
}
