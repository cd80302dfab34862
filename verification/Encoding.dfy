/** How the store spells its keys and how commitments spell their fields: decimal
    integers, fields joined by a separator, and what those spellings determine.
    Digests are an arbitrary function of the preimage. */
module Encoding {
  import opened Domain

  // ----- decimal integers -----

  const MIN64: int := -0x8000_0000_0000_0000
  const MAX64: int := 0x7fff_ffff_ffff_ffff

  function Digit(d: nat): char
    requires d < 10
  {
    ('0' as int + d) as char
  }

  /** The decimal digits of n, none for zero. */
  function Digits(n: nat): string {
    if n == 0 then "" else Digits(n / 10) + [Digit(n % 10)]
  }

  /** The standard decimal spelling of any integer. */
  function Decimal(i: int): string {
    if i == 0 then "0" else if i < 0 then "-" + Digits(-i) else Digits(i)
  }

  /** The number a digit string denotes. */
  function Value(s: string): int {
    if s == "" then 0 else 10 * Value(s[..|s| - 1]) + (s[|s| - 1] as int - '0' as int)
  }

  lemma {:induction false} DigitsRoundTrip(n: nat)
    ensures Value(Digits(n)) == n
    ensures n > 0 ==> Digits(n) != ""
    ensures forall c :: c in Digits(n) ==> '0' <= c <= '9'
  {
    if n > 0 {
      DigitsRoundTrip(n / 10);
      assert Digits(n)[..|Digits(n)| - 1] == Digits(n / 10);
    }
  }

  /** The integer a spelling denotes. */
  function Number(s: string): int {
    if s != "" && s[0] == '-' then -Value(s[1..]) else Value(s)
  }

  /** Reading the decimal spelling of an integer gives that integer back, so different
      integers are spelt differently. */
  lemma DecimalRoundTrip(i: int)
    ensures Number(Decimal(i)) == i
    ensures forall c :: c in Decimal(i) ==> '0' <= c <= '9' || c == '-'
  {
    if i < 0 {
      DigitsRoundTrip(-i);
      assert Decimal(i)[1..] == Digits(-i);
    } else if i == 0 {
      assert Value("0") == 0 by {
        assert "0"[..0] == "";
      }
    } else {
      DigitsRoundTrip(i);
      assert Digits(i)[0] in Digits(i);
    }
  }

  function Power10(k: nat): nat {
    if k == 0 then 1 else 10 * Power10(k - 1)
  }

  lemma {:induction false} DigitsLength(n: nat, k: nat)
    requires n < Power10(k)
    ensures |Digits(n)| <= k
    decreases k
  {
    if n > 0 {
      DigitsLength(n / 10, k - 1);
    }
  }

  /** What the store's own itoa prints for a 64-bit integer. The smallest one cannot be
      negated in 64 bits, so its digits are never printed. */
  function Printed(i: int): string {
    if i == MIN64 then "-" else Decimal(i)
  }

  /** Two's-complement negation at 64 bits. */
  function Negate64(i: int): int {
    if i == MIN64 then MIN64 else -i
  }

  method Itoa(n: int) returns (s: string)
    requires MIN64 <= n <= MAX64
    ensures s == Printed(n)
  {
    var i := n;
    if i == 0 {
      return "0";
    }
    var neg := i < 0;
    if neg {
      i := Negate64(i);
    }
    ghost var magnitude: nat := if i > 0 then i else 0;
    DigitsFit(magnitude);
    var b := new char[20];
    var pos := b.Length;
    while i > 0
      invariant 0 <= pos <= b.Length && i <= MAX64
      invariant pos >= 1 + |Digits(if i > 0 then i else 0)|
      invariant Digits(magnitude) == Digits(if i > 0 then i else 0) + b[pos..]
    {
      ghost var written := b[pos..];
      pos := pos - 1;
      b[pos] := ('0' as int + i % 10) as char;
      assert b[pos..] == [Digit(i % 10)] + written;
      i := i / 10;
    }
    assert b[pos..] == Digits(magnitude);
    if neg {
      pos := pos - 1;
      b[pos] := '-';
      assert b[pos..] == "-" + Digits(magnitude);
    }
    return b[pos..];
  }

  lemma DigitsFit(n: nat)
    requires n <= MAX64
    ensures |Digits(n)| <= 19
  {
    assert Power10(5) == 100000;
    assert Power10(10) == 10000000000;
    assert Power10(15) == 1000000000000000;
    assert Power10(19) == 10000000000000000000;
    DigitsLength(n, 19);
  }

  /** itoa prints the decimal spelling of every 64-bit integer but the smallest, and
      still no two of them alike. */
  lemma PrintedExactly(i: int, j: int)
    requires MIN64 <= i <= MAX64 && MIN64 <= j <= MAX64
    ensures Printed(i) == Decimal(i) <==> i != MIN64
    ensures Printed(i) == Printed(j) <==> i == j
    ensures '|' !in Printed(i)
  {
    DecimalRoundTrip(i);
    DecimalRoundTrip(j);
    NotJustMinus(i);
    NotJustMinus(j);
  }

  lemma NotJustMinus(i: int)
    ensures Decimal(i) != "-"
  {
    if i != 0 {
      DigitsRoundTrip(if i < 0 then -i else i);
      assert i < 0 ==> |Decimal(i)| >= 2;
    }
  }

  // ----- joined fields -----

  /** The first field of one pair runs over a separator into the second of the other:
      what is split as a, b on one side is split further left on the other. */
  ghost predicate Overlap(sep: char, a: string, b: string, c: string, d: string) {
    exists piece: string :: a == c + [sep] + piece && d == piece + [sep] + b
  }

  /** Two pairs are spelt alike exactly when they are equal or one overlaps the other. */
  lemma PairsCollideExactly(sep: char, a: string, b: string, c: string, d: string)
    ensures a + [sep] + b == c + [sep] + d <==>
            (a == c && b == d) || Overlap(sep, a, b, c, d) || Overlap(sep, c, d, a, b)
  {
    if a + [sep] + b == c + [sep] + d {
      if |c| < |a| {
        OverlapFound(sep, a, b, c, d);
      } else if |a| < |c| {
        OverlapFound(sep, c, d, a, b);
      } else {
        assert a == (a + [sep] + b)[..|a|] && c == (c + [sep] + d)[..|a|];
        assert b == (a + [sep] + b)[|a| + 1..] && d == (c + [sep] + d)[|a| + 1..];
      }
    }
    if Overlap(sep, a, b, c, d) {
      OverlapCollides(sep, a, b, c, d);
    }
    if Overlap(sep, c, d, a, b) {
      OverlapCollides(sep, c, d, a, b);
    }
  }

  lemma OverlapFound(sep: char, a: string, b: string, c: string, d: string)
    requires a + [sep] + b == c + [sep] + d && |c| < |a|
    ensures Overlap(sep, a, b, c, d)
  {
    var s, piece := a + [sep] + b, a[|c| + 1..];
    assert a == s[..|a|] && b == s[|a| + 1..] && s[|a|] == sep;
    assert c == s[..|c|] && d == s[|c| + 1..] && s[|c|] == sep;
    assert a == c + [sep] + piece;
    assert d == piece + [sep] + b;
  }

  lemma OverlapCollides(sep: char, a: string, b: string, c: string, d: string)
    requires Overlap(sep, a, b, c, d)
    ensures a + [sep] + b == c + [sep] + d
  {
    var piece: string :| a == c + [sep] + piece && d == piece + [sep] + b;
    assert c + [sep] + piece + [sep] + b == c + [sep] + (piece + [sep] + b);
  }

  lemma OverlapNeedsSeparator(sep: char, a: string, b: string, c: string, d: string)
    ensures Overlap(sep, a, b, c, d) ==> sep in a && sep in d
  {
    if piece: string :| a == c + [sep] + piece && d == piece + [sep] + b {
      assert a[|c|] == sep && d[|piece|] == sep;
    }
  }

  /** Fields joined by a separator that the first of them does not contain can be taken apart. */
  lemma FirstField(sep: char, a: string, b: string, c: string, d: string)
    requires sep !in a && sep !in c
    ensures a + [sep] + b == c + [sep] + d ==> a == c && b == d
  {
    hide Overlap;
    PairsCollideExactly(sep, a, b, c, d);
    OverlapNeedsSeparator(sep, a, b, c, d);
    OverlapNeedsSeparator(sep, c, d, a, b);
  }

  /** The same when the last of them does not contain it. */
  lemma LastField(sep: char, a: string, b: string, c: string, d: string)
    requires sep !in b && sep !in d
    ensures a + [sep] + b == c + [sep] + d ==> a == c && b == d
  {
    hide Overlap;
    PairsCollideExactly(sep, a, b, c, d);
    OverlapNeedsSeparator(sep, a, b, c, d);
    OverlapNeedsSeparator(sep, c, d, a, b);
  }

  function MemberText(k: MemberKey): string {
    k.group + "|" + k.user
  }

  function CycleText(k: CycleKey): string {
    k.group + "|" + Printed(k.index)
  }

  function ContribText(k: ContribKey): string {
    k.group + "|" + k.user + "|" + Printed(k.cycle)
  }

  predicate Plain(id: Id) {
    '|' !in id
  }

  predicate Width64(i: int) {
    MIN64 <= i <= MAX64
  }

  /** Two membership keys are spelt alike exactly when they are the same or one group
      id extends the other by a bar and a piece that the other's user id begins with. */
  lemma MemberTextExact(k: MemberKey, l: MemberKey)
    ensures MemberText(k) == MemberText(l) <==>
            k == l || Overlap('|', k.group, k.user, l.group, l.user) || Overlap('|', l.group, l.user, k.group, k.user)
  {
    PairsCollideExactly('|', k.group, k.user, l.group, l.user);
  }

  /** So they are unambiguous as soon as group ids contain no bar. */
  lemma MemberTextInjective(k: MemberKey, l: MemberKey)
    requires Plain(k.group) && Plain(l.group)
    ensures MemberText(k) == MemberText(l) ==> k == l
  {
    FirstField('|', k.group, k.user, l.group, l.user);
  }

  /** Cycle keys are unambiguous whatever the group ids: the last bar is the separator. */
  lemma CycleTextInjective(k: CycleKey, l: CycleKey)
    requires Width64(k.index) && Width64(l.index)
    ensures CycleText(k) == CycleText(l) ==> k == l
  {
    PrintedExactly(k.index, l.index);
    PrintedExactly(l.index, k.index);
    LastField('|', k.group, Printed(k.index), l.group, Printed(l.index));
  }

  /** Contribution keys collide exactly when the cycles agree and the membership keys do. */
  lemma ContribTextExact(k: ContribKey, l: ContribKey)
    requires Width64(k.cycle) && Width64(l.cycle)
    ensures ContribText(k) == ContribText(l) <==>
            k.cycle == l.cycle && MemberText(MemberKey(k.group, k.user)) == MemberText(MemberKey(l.group, l.user))
  {
    PrintedExactly(k.cycle, l.cycle);
    PrintedExactly(l.cycle, k.cycle);
    LastField('|', k.group + "|" + k.user, Printed(k.cycle), l.group + "|" + l.user, Printed(l.cycle));
  }

  lemma ContribTextInjective(k: ContribKey, l: ContribKey)
    requires Plain(k.group) && Plain(l.group) && Width64(k.cycle) && Width64(l.cycle)
    ensures ContribText(k) == ContribText(l) ==> k == l
  {
    ContribTextExact(k, l);
    MemberTextInjective(MemberKey(k.group, k.user), MemberKey(l.group, l.user));
  }

  /** With a bar in a group id two different members share one key. */
  lemma BarsCollide(a: Id, b: Id, c: Id)
    ensures MemberKey(a + "|" + b, c) != MemberKey(a, b + "|" + c)
    ensures MemberText(MemberKey(a + "|" + b, c)) == MemberText(MemberKey(a, b + "|" + c))
  {
    assert |a + "|" + b| > |a|;
    assert (a + "|" + b) + "|" + c == a + "|" + (b + "|" + c);
  }

  // ----- string-keyed tables -----

  /** A table filled by a series of saves, keyed by the values themselves. */
  function Table<K, V>(saves: seq<(K, V)>): map<K, V> {
    if saves == [] then map[] else Table(saves[..|saves| - 1])[saves[|saves| - 1].0 := saves[|saves| - 1].1]
  }

  function Spelt<K, V>(saves: seq<(K, V)>, text: K -> string): seq<(string, V)> {
    seq(|saves|, i requires 0 <= i < |saves| => (text(saves[i].0), saves[i].1))
  }

  /** Over any series of saves, looking a key up by its spelling finds what was last
      saved under that very key, provided the spelling is unambiguous on the keys used. */
  lemma {:induction false} TablesAgree<K, V>(saves: seq<(K, V)>, text: K -> string, safe: K -> bool, k: K)
    requires forall a, b :: safe(a) && safe(b) && text(a) == text(b) ==> a == b
    requires (forall s :: s in saves ==> safe(s.0)) && safe(k)
    ensures text(k) in Table(Spelt(saves, text)) <==> k in Table(saves)
    ensures k in Table(saves) ==> Table(Spelt(saves, text))[text(k)] == Table(saves)[k]
  {
    if saves != [] {
      var init := saves[..|saves| - 1];
      TablesAgree(init, text, safe, k);
      assert Spelt(saves, text)[..|saves| - 1] == Spelt(init, text);
    }
  }

  function SafeContrib(): ContribKey -> bool {
    (k: ContribKey) => Plain(k.group) && Width64(k.cycle)
  }

  function SafeCycle(): CycleKey -> bool {
    (k: CycleKey) => Width64(k.index)
  }

  function SafeMember(): MemberKey -> bool {
    (k: MemberKey) => Plain(k.group)
  }

  /** The store's contribution table behaves like a table keyed by (group, user, cycle). */
  lemma ContributionTableAgrees(saves: seq<(ContribKey, Contribution)>, k: ContribKey)
    requires (forall s :: s in saves ==> SafeContrib()(s.0)) && SafeContrib()(k)
    ensures ContribText(k) in Table(Spelt(saves, ContribText)) <==> k in Table(saves)
    ensures k in Table(saves) ==> Table(Spelt(saves, ContribText))[ContribText(k)] == Table(saves)[k]
  {
    forall a, b | SafeContrib()(a) && SafeContrib()(b) && ContribText(a) == ContribText(b) ensures a == b {
      ContribTextInjective(a, b);
    }
    TablesAgree(saves, ContribText, SafeContrib(), k);
  }

  /** The store's cycle table behaves like a table keyed by (group, index). */
  lemma CycleTableAgrees(saves: seq<(CycleKey, Cycle)>, k: CycleKey)
    requires (forall s :: s in saves ==> SafeCycle()(s.0)) && SafeCycle()(k)
    ensures CycleText(k) in Table(Spelt(saves, CycleText)) <==> k in Table(saves)
    ensures k in Table(saves) ==> Table(Spelt(saves, CycleText))[CycleText(k)] == Table(saves)[k]
  {
    forall a, b | SafeCycle()(a) && SafeCycle()(b) && CycleText(a) == CycleText(b) ensures a == b {
      CycleTextInjective(a, b);
    }
    TablesAgree(saves, CycleText, SafeCycle(), k);
  }

  /** The store's membership table behaves like a table keyed by (group, user). */
  lemma MembershipTableAgrees(saves: seq<(MemberKey, Membership)>, k: MemberKey)
    requires (forall s :: s in saves ==> SafeMember()(s.0)) && SafeMember()(k)
    ensures MemberText(k) in Table(Spelt(saves, MemberText)) <==> k in Table(saves)
    ensures k in Table(saves) ==> Table(Spelt(saves, MemberText))[MemberText(k)] == Table(saves)[k]
  {
    forall a, b | SafeMember()(a) && SafeMember()(b) && MemberText(a) == MemberText(b) ensures a == b {
      MemberTextInjective(a, b);
    }
    TablesAgree(saves, MemberText, SafeMember(), k);
  }

  // ----- commitments -----

  const UNIT_SEPARATOR: char := '\U{001f}'

  /** The bytes that are digested: the fields with a separator between them. */
  function Preimage(parts: seq<string>): string {
    if parts == [] then ""
    else if |parts| == 1 then parts[0]
    else parts[0] + [UNIT_SEPARATOR] + Preimage(parts[1..])
  }

  predicate Separable(part: string) {
    UNIT_SEPARATOR !in part
  }

  lemma {:induction false} OneFieldOnly(part: string, more: seq<string>)
    requires Separable(part) && |more| >= 2
    ensures Preimage(more) != part
  {
    assert UNIT_SEPARATOR in Preimage(more);
  }

  lemma {:induction false} PreimageInjective(xs: seq<string>, ys: seq<string>)
    requires xs != [] && ys != []
    requires (forall x :: x in xs ==> Separable(x)) && (forall y :: y in ys ==> Separable(y))
    requires Preimage(xs) == Preimage(ys)
    ensures xs == ys
    decreases |xs|
  {
    if |xs| == 1 || |ys| == 1 {
      if |ys| > 1 {
        OneFieldOnly(xs[0], ys);
      } else if |xs| > 1 {
        OneFieldOnly(ys[0], xs);
      }
    } else {
      assert Separable(xs[0]) && Separable(ys[0]);
      FirstField(UNIT_SEPARATOR, xs[0], Preimage(xs[1..]), ys[0], Preimage(ys[1..]));
      PreimageInjective(xs[1..], ys[1..]);
      assert xs == [xs[0]] + xs[1..] && ys == [ys[0]] + ys[1..];
    }
  }

  /** Lists of fields without the separator are determined by what is digested, except
      that no field at all and one empty field are digested alike. */
  lemma PreimageExact(xs: seq<string>, ys: seq<string>)
    requires (forall x :: x in xs ==> Separable(x)) && (forall y :: y in ys ==> Separable(y))
    ensures Preimage(xs) == Preimage(ys) <==>
            xs == ys || (xs == [] && ys == [""]) || (xs == [""] && ys == [])
  {
    if Preimage(xs) == Preimage(ys) {
      if xs != [] && ys != [] {
        PreimageInjective(xs, ys);
      } else if ys != [] {
        EmptyPreimage(ys);
      } else if xs != [] {
        EmptyPreimage(xs);
      }
    }
  }

  lemma EmptyPreimage(xs: seq<string>)
    requires xs != [] && Preimage(xs) == ""
    ensures xs == [""]
  {
    if |xs| >= 2 {
      OneFieldOnly("", xs);
    }
  }

  // ----- generated identifiers -----

  type Byte = b: nat | b < 256

  function HexDigit(d: nat): char
    requires d < 16
  {
    if d < 10 then Digit(d) else ('a' as int + d - 10) as char
  }

  function HexByte(b: Byte): string {
    [HexDigit(b / 16), HexDigit(b % 16)]
  }

  /** A generated identifier: random bytes in hexadecimal. */
  function Hex(bytes: seq<Byte>): string {
    if bytes == [] then "" else Hex(bytes[..|bytes| - 1]) + HexByte(bytes[|bytes| - 1])
  }

  lemma HexByteSafe(a: Byte, b: Byte)
    ensures HexByte(a) == HexByte(b) ==> a == b
    ensures Plain(HexByte(a)) && Separable(HexByte(a)) && |HexByte(a)| == 2
  {
    var s, t := HexByte(a), HexByte(b);
    assert s == t ==> s[0] == t[0] && s[1] == t[1];
  }

  /** Every byte is spelt by two lower-case hexadecimal digits, the higher one first. */
  lemma {:induction false} HexSpelling(bytes: seq<Byte>, i: nat)
    requires i < |bytes|
    ensures |Hex(bytes)| == 2 * |bytes|
    ensures Hex(bytes)[2 * i] == "0123456789abcdef"[bytes[i] / 16]
    ensures Hex(bytes)[2 * i + 1] == "0123456789abcdef"[bytes[i] % 16]
  {
    var n := |bytes| - 1;
    HexSafe(bytes);
    HexSafe(bytes[..n]);
    if i < n {
      HexSpelling(bytes[..n], i);
    }
  }

  /** Generated identifiers are safe in keys and in commitments. */
  lemma {:induction false} HexSafe(bytes: seq<Byte>)
    ensures Plain(Hex(bytes)) && Separable(Hex(bytes)) && |Hex(bytes)| == 2 * |bytes|
  {
    hide HexByte;
    if bytes != [] {
      HexSafe(bytes[..|bytes| - 1]);
      HexByteSafe(bytes[|bytes| - 1], 0);
    }
  }

  /** Different bytes give different identifiers. */
  lemma {:induction false} HexInjective(a: seq<Byte>, b: seq<Byte>)
    requires Hex(a) == Hex(b)
    ensures a == b
    decreases |a|
  {
    hide HexByte;
    HexSafe(a);
    HexSafe(b);
    if a != [] {
      var n := |a| - 1;
      HexSafe(a[..n]);
      HexSafe(b[..n]);
      HexByteSafe(a[n], b[n]);
      SameEnds(Hex(a[..n]), HexByte(a[n]), Hex(b[..n]), HexByte(b[n]));
      HexInjective(a[..n], b[..n]);
      assert a == a[..n] + [a[n]] && b == b[..n] + [b[n]];
    }
  }

  lemma SameEnds(p: string, x: string, q: string, y: string)
    requires p + x == q + y && |p| == |q|
    ensures p == q && x == y
  {
    assert p == (p + x)[..|p|] && q == (q + y)[..|q|];
    assert x == (p + x)[|p|..] && y == (q + y)[|q|..];
  }

  function Commitment(user: Id, group: Id, cycle: int, amount: Money): string {
    Preimage([user, group, Decimal(cycle), Decimal(amount)])
  }

  lemma DecimalSeparable(i: int)
    ensures Separable(Decimal(i))
  {
    DecimalRoundTrip(i);
  }

  /** Two commitments are made of the same bytes exactly when cycle and amount agree and
      user and group are the same or one user id runs over a separator into the group. */
  lemma CommitmentExact(u: Id, g: Id, c: int, a: Money, v: Id, h: Id, d: int, b: Money)
    ensures Commitment(u, g, c, a) == Commitment(v, h, d, b) <==>
            && c == d && a == b
            && ((u == v && g == h) || Overlap(UNIT_SEPARATOR, u, g, v, h) || Overlap(UNIT_SEPARATOR, v, h, u, g))
  {
    var s, t := u + [UNIT_SEPARATOR] + g, v + [UNIT_SEPARATOR] + h;
    CommitmentTail(u, g, c, a);
    CommitmentTail(v, h, d, b);
    DecimalsSplit(s, c, a, t, d, b);
    PairsCollideExactly(UNIT_SEPARATOR, u, g, v, h);
  }

  lemma CommitmentTail(u: Id, g: Id, c: int, a: Money)
    ensures Commitment(u, g, c, a)
            == u + [UNIT_SEPARATOR] + g + [UNIT_SEPARATOR] + Decimal(c) + [UNIT_SEPARATOR] + Decimal(a)
  {
    TwoFields(u, g, Decimal(c), Decimal(a));
    assert [Decimal(c), Decimal(a)][1..] == [Decimal(a)];
    var tail := Decimal(c) + [UNIT_SEPARATOR] + Decimal(a);
    assert u + [UNIT_SEPARATOR] + (g + [UNIT_SEPARATOR] + tail)
        == u + [UNIT_SEPARATOR] + g + [UNIT_SEPARATOR] + Decimal(c) + [UNIT_SEPARATOR] + Decimal(a);
  }

  lemma DecimalsSplit(s: string, c: int, a: int, t: string, d: int, b: int)
    ensures s + [UNIT_SEPARATOR] + Decimal(c) + [UNIT_SEPARATOR] + Decimal(a)
            == t + [UNIT_SEPARATOR] + Decimal(d) + [UNIT_SEPARATOR] + Decimal(b)
            <==> s == t && c == d && a == b
  {
    DecimalSeparable(c);
    DecimalSeparable(a);
    DecimalSeparable(d);
    DecimalSeparable(b);
    LastField(UNIT_SEPARATOR, s + [UNIT_SEPARATOR] + Decimal(c), Decimal(a),
              t + [UNIT_SEPARATOR] + Decimal(d), Decimal(b));
    LastField(UNIT_SEPARATOR, s, Decimal(c), t, Decimal(d));
    DecimalRoundTrip(c);
    DecimalRoundTrip(d);
    DecimalRoundTrip(a);
    DecimalRoundTrip(b);
  }

  /** A commitment binds one user, group, cycle and amount as soon as user ids contain
      no separator. */
  lemma CommitmentBinds(u: Id, g: Id, c: int, a: Money, v: Id, h: Id, d: int, b: Money)
    requires Separable(u) && Separable(v)
    ensures Commitment(u, g, c, a) == Commitment(v, h, d, b) <==> u == v && g == h && c == d && a == b
  {
    CommitmentExact(u, g, c, a, v, h, d, b);
    FirstField(UNIT_SEPARATOR, u, g, v, h);
    PairsCollideExactly(UNIT_SEPARATOR, u, g, v, h);
  }

  /** With generated ids both the store's keys and the commitments are unambiguous. */
  lemma GeneratedIdsBind(u: seq<Byte>, g: seq<Byte>, c: int, a: Money, v: seq<Byte>, h: seq<Byte>, d: int, b: Money)
    requires Width64(c) && Width64(d)
    ensures ContribText(ContribKey(Hex(g), Hex(u), c)) == ContribText(ContribKey(Hex(h), Hex(v), d))
            <==> g == h && u == v && c == d
    ensures Commitment(Hex(u), Hex(g), c, a) == Commitment(Hex(v), Hex(h), d, b)
            <==> g == h && u == v && c == d && a == b
  {
    hide Hex, ContribText, Commitment;
    HexSafe(g);
    HexSafe(h);
    HexSafe(u);
    HexSafe(v);
    HexDistinct(g, h);
    HexDistinct(u, v);
    ContribTextInjective(ContribKey(Hex(g), Hex(u), c), ContribKey(Hex(h), Hex(v), d));
    CommitmentBinds(Hex(u), Hex(g), c, a, Hex(v), Hex(h), d, b);
  }

  lemma HexDistinct(a: seq<Byte>, b: seq<Byte>)
    ensures Hex(a) == Hex(b) <==> a == b
  {
    if Hex(a) == Hex(b) {
      HexInjective(a, b);
    }
  }

  /** With the separator inside an id a commitment can be read as another user's. */
  lemma SeparatorsCollide(u: Id, g: Id, h: Id, c: int, a: Money)
    ensures u + [UNIT_SEPARATOR] + g != u
    ensures Commitment(u + [UNIT_SEPARATOR] + g, h, c, a) == Commitment(u, g + [UNIT_SEPARATOR] + h, c, a)
  {
    assert |u + [UNIT_SEPARATOR] + g| > |u|;
    var tail := Preimage([Decimal(c), Decimal(a)]);
    var v, h2 := u + [UNIT_SEPARATOR] + g, g + [UNIT_SEPARATOR] + h;
    TwoFields(v, h, Decimal(c), Decimal(a));
    TwoFields(u, h2, Decimal(c), Decimal(a));
    assert v + [UNIT_SEPARATOR] + (h + [UNIT_SEPARATOR] + tail)
        == u + [UNIT_SEPARATOR] + (h2 + [UNIT_SEPARATOR] + tail);
  }

  lemma TwoFields(p: string, q: string, r: string, s: string)
    ensures Preimage([p, q, r, s]) == p + [UNIT_SEPARATOR] + (q + [UNIT_SEPARATOR] + Preimage([r, s]))
  {
    assert [p, q, r, s][1..] == [q, r, s] && [q, r, s][1..] == [r, s];
  }

  // ----- the proofs attached to events -----

  /** A digest without collisions whose spelling contains no separator. */
  ghost predicate CollisionFree(digest: string -> string) {
    && (forall a, b :: digest(a) == digest(b) ==> a == b)
    && (forall a :: Separable(digest(a)))
  }

  function TxHash(digest: string -> string, kind: string, seed: string): string {
    digest(Preimage(["tx", kind, seed]))
  }

  function ContributionProof(digest: string -> string, u: Id, g: Id, c: int, a: Money): string {
    TxHash(digest, "contribution", digest(Commitment(u, g, c, a)))
  }

  /** The default of one member in a cycle: the cycle contributes its group only. */
  function DefaultProof(digest: string -> string, g: Id, u: Id, cycle: Cycle): string {
    TxHash(digest, "default", digest(Preimage(["default", g, u, cycle.group])))
  }

  function PayoutProof(digest: string -> string, payee: Id): string {
    TxHash(digest, "payout", payee)
  }

  lemma TxHashBinds(digest: string -> string, kind: string, seed: string, other: string, seed2: string)
    requires CollisionFree(digest)
    requires Separable(kind) && Separable(seed) && Separable(other) && Separable(seed2)
    ensures TxHash(digest, kind, seed) == TxHash(digest, other, seed2) <==> kind == other && seed == seed2
  {
    var xs, ys := ["tx", kind, seed], ["tx", other, seed2];
    if TxHash(digest, kind, seed) == TxHash(digest, other, seed2) {
      assert Preimage(xs) == Preimage(ys);
      PreimageInjective(xs, ys);
      assert xs[1] == ys[1] && xs[2] == ys[2];
    }
  }

  /** A contribution's proof identifies what its commitment binds: the contribution, up
      to a user id that runs over a separator into the group. */
  lemma ContributionProofExact(digest: string -> string, u: Id, g: Id, c: int, a: Money, v: Id, h: Id, d: int, b: Money)
    requires CollisionFree(digest)
    ensures ContributionProof(digest, u, g, c, a) == ContributionProof(digest, v, h, d, b) <==>
            && c == d && a == b
            && ((u == v && g == h) || Overlap(UNIT_SEPARATOR, u, g, v, h) || Overlap(UNIT_SEPARATOR, v, h, u, g))
  {
    CommitmentExact(u, g, c, a, v, h, d, b);
    TxHashBinds(digest, "contribution", digest(Commitment(u, g, c, a)), "contribution", digest(Commitment(v, h, d, b)));
  }

  /** A default's proof identifies group and user but not the cycle: all the cycles one
      member misses in one group share one proof. */
  lemma DefaultProofForgetsCycle(digest: string -> string, g: Id, u: Id, c: Cycle, h: Id, v: Id, d: Cycle)
    requires CollisionFree(digest) && Separable(u) && Separable(g) && Separable(v) && Separable(h)
    requires c.group == g && d.group == h
    ensures DefaultProof(digest, g, u, c) == DefaultProof(digest, h, v, d) <==> g == h && u == v
  {
    var xs, ys := ["default", g, u, c.group], ["default", h, v, d.group];
    TxHashBinds(digest, "default", digest(Preimage(xs)), "default", digest(Preimage(ys)));
    if Preimage(xs) == Preimage(ys) {
      PreimageInjective(xs, ys);
      assert xs[1] == ys[1] && xs[2] == ys[2];
    }
  }

  /** A payout's proof identifies the payee and nothing else; proofs of different kinds
      of event never coincide. */
  lemma PayoutProofNamesPayee(digest: string -> string, p: Id, q: Id, u: Id, g: Id, c: int, a: Money, cycle: Cycle)
    requires CollisionFree(digest) && Separable(p) && Separable(q)
    ensures PayoutProof(digest, p) == PayoutProof(digest, q) <==> p == q
    ensures PayoutProof(digest, p) != ContributionProof(digest, u, g, c, a)
    ensures PayoutProof(digest, p) != DefaultProof(digest, g, u, cycle)
    ensures DefaultProof(digest, g, u, cycle) != ContributionProof(digest, u, g, c, a)
  {
    var made, missed := digest(Commitment(u, g, c, a)), digest(Preimage(["default", g, u, cycle.group]));
    TxHashBinds(digest, "payout", p, "payout", q);
    TxHashBinds(digest, "payout", p, "contribution", made);
    TxHashBinds(digest, "payout", p, "default", missed);
    TxHashBinds(digest, "default", missed, "contribution", made);
    assert "payout"[0] == 'p' && "contribution"[0] == 'c' && "default"[0] == 'd';
  }
}
