/** The match key of an address rule: a printed form of its match fields, used to tell whether two
    rules match the same packets, and the masking that makes equal address blocks print alike. */
module MatchKey {
  import Decimal

  datatype Family = IPv4 | IPv6
  datatype Direction = AnyDirection | In | Out
  datatype Iface = AnyIface | Wifi | Data | Vpn | Unmanaged
  datatype Proto = AnyProto | Tcp | Udp | Icmp | Other | UnknownProto
  datatype CtState = AnyState | New | Established | Invalid
  datatype CtDirection = AnyCtDirection | Orig | Reply
  datatype Port = AnyPort | Exact(port: nat) | Range(lo: nat, hi: nat)
  datatype Cidr4 = AnyCidr4 | Cidr4(a: nat, b: nat, c: nat, d: nat, prefix: nat)
  datatype Cidr6 = AnyCidr6 | Cidr6(addr: seq<bv8>, prefix: nat)

  /** A rule carries address fields for both families; only those of its own family count. */
  datatype Rule = Rule(family: Family, dir: Direction, iface: Iface, ifindex: nat, proto: Proto,
                       ctState: CtState, ctDir: CtDirection,
                       src: Cidr4, dst: Cidr4, src6: Cidr6, dst6: Cidr6, sport: Port, dport: Port)

  predicate SameMatch(r: Rule, s: Rule) {
    && r.family == s.family && r.dir == s.dir && r.iface == s.iface && r.ifindex == s.ifindex && r.proto == s.proto
    && r.ctState == s.ctState && r.ctDir == s.ctDir && r.sport == s.sport && r.dport == s.dport
    && (if r.family == IPv4 then r.src == s.src && r.dst == s.dst else r.src6 == s.src6 && r.dst6 == s.dst6)
  }

  // ---------------------------------------------------------------- printing

  function FamilyStr(f: Family): string { match f case IPv4 => "ipv4" case IPv6 => "ipv6" }

  function DirectionStr(d: Direction): string { match d case AnyDirection => "any" case In => "in" case Out => "out" }

  function IfaceStr(i: Iface): string {
    match i case AnyIface => "any" case Wifi => "wifi"
    case Data => "data" case Vpn => "vpn" case Unmanaged => "unmanaged"
  }

  function ProtoStr(p: Proto): string {
    match p case AnyProto => "any" case Tcp => "tcp" case Udp => "udp"
    case Icmp => "icmp" case Other => "other" case UnknownProto => "unknown"
  }

  function CtStateStr(s: CtState): string {
    match s case AnyState => "any" case New => "new" case Established => "established" case Invalid => "invalid"
  }

  function CtDirStr(d: CtDirection): string {
    match d case AnyCtDirection => "any" case Orig => "orig" case Reply => "reply"
  }

  function PortStr(p: Port): string {
    match p
    case AnyPort => "any"
    case Exact(n) => Decimal.Print(n)
    case Range(lo, hi) => Decimal.Print(lo) + "-" + Decimal.Print(hi)
  }

  /** The library's text form of a 16-byte address. */
  type Show6 = seq<bv8> -> string

  /** What is used of that form: one to one, and free of the two separators. */
  ghost predicate Legible(show: Show6) {
    && (forall x, y | |x| == |y| == 16 && show(x) == show(y) :: x == y)
    && (forall x {:trigger show(x)} | |x| == 16 :: '|' !in show(x) && '/' !in show(x))
  }

  /** Plain hexadecimal is one such form. */
  function HexDigit(d: bv8): (c: char)
    requires d < 16
    ensures c != '|' && c != '/'
  {
    match d as nat
    case 10 => 'a' case 11 => 'b' case 12 => 'c' case 13 => 'd' case 14 => 'e' case 15 => 'f'
    case n => (n % 10 + '0' as nat) as char
  }

  function Hex(bytes: seq<bv8>): string {
    if bytes == [] then "" else [HexDigit(bytes[0] >> 4), HexDigit(bytes[0] & 15)] + Hex(bytes[1..])
  }

  lemma HexDigitInjective(x: bv8, y: bv8)
    requires x < 16 && y < 16 && HexDigit(x) == HexDigit(y)
    ensures x == y
  {
  }

  lemma Nibbles(x: bv8, y: bv8)
    requires x >> 4 == y >> 4 && x & 15 == y & 15
    ensures x == y
  {
  }

  lemma {:induction false} HexInjective(x: seq<bv8>, y: seq<bv8>)
    requires |x| == |y| && Hex(x) == Hex(y)
    ensures x == y
  {
    if x != [] {
      assert Hex(x)[0] == Hex(y)[0] && Hex(x)[1] == Hex(y)[1];
      HexDigitInjective(x[0] >> 4, y[0] >> 4);
      HexDigitInjective(x[0] & 15, y[0] & 15);
      Nibbles(x[0], y[0]);
      assert Hex(x)[2..] == Hex(x[1..]) && Hex(y)[2..] == Hex(y[1..]);
      HexInjective(x[1..], y[1..]);
    }
  }

  lemma {:induction false} HexClean(x: seq<bv8>)
    ensures '|' !in Hex(x) && '/' !in Hex(x)
  {
    if x != [] {
      HexClean(x[1..]);
    }
  }

  lemma HexIsLegible()
    ensures Legible(Hex)
  {
    forall x, y | |x| == |y| == 16 && Hex(x) == Hex(y) ensures x == y {
      HexInjective(x, y);
    }
    forall x | |x| == 16 ensures '|' !in Hex(x) && '/' !in Hex(x) {
      HexClean(x);
    }
  }

  function Dot(n: nat, rest: string): string { Decimal.Print(n) + (['.'] + rest) }

  function Dotted(a: nat, b: nat, c: nat, d: nat): string { Dot(a, Dot(b, Dot(c, Decimal.Print(d)))) }

  function Cidr4Str(c: Cidr4): string {
    match c case AnyCidr4 => "any" case Cidr4(a, b, c, d, prefix) => Dotted(a, b, c, d) + "/" + Decimal.Print(prefix)
  }

  function Cidr6Str(show: Show6, c: Cidr6): string {
    match c case AnyCidr6 => "any" case Cidr6(addr, prefix) => show(addr) + "/" + Decimal.Print(prefix)
  }

  const Labels: seq<string> :=
    ["family=", "dir=", "iface=", "ifindex=", "proto=", "ctstate=", "ctdir=", "src=", "dst=", "sport=", "dport="]

  function Values(show: Show6, r: Rule): (v: seq<string>)
    ensures |v| == 11
  {
    [FamilyStr(r.family), DirectionStr(r.dir), IfaceStr(r.iface), Decimal.Print(r.ifindex), ProtoStr(r.proto),
     CtStateStr(r.ctState), CtDirStr(r.ctDir),
     if r.family == IPv4 then Cidr4Str(r.src) else Cidr6Str(show, r.src6),
     if r.family == IPv4 then Cidr4Str(r.dst) else Cidr6Str(show, r.dst6),
     PortStr(r.sport), PortStr(r.dport)]
  }

  function Labelled(labels: seq<string>, values: seq<string>): (s: string)
    requires |labels| == |values|
    ensures s == "" || s[0] == '|'
  {
    if labels == [] then "" else "|" + labels[0] + values[0] + Labelled(labels[1..], values[1..])
  }

  function Key(show: Show6, r: Rule): string { "mk2" + Labelled(Labels, Values(show, r)) }

  // ---------------------------------------------------------------- printing is one to one

  lemma NoShorter(a: string, x: string, b: string, y: string, c: char)
    requires a + x == b + y && c !in b && (x == "" || x[0] == c)
    ensures |b| <= |a|
  {
    var s := a + x;
    assert forall i | 0 <= i < |b| :: (b + y)[i] == b[i];
    assert x != "" ==> s[|a|] == c;
  }

  lemma CutAtSeparator(a: string, x: string, b: string, y: string, c: char)
    requires a + x == b + y && c !in a && c !in b
    requires (x == "" || x[0] == c) && (y == "" || y[0] == c)
    ensures a == b && x == y
  {
    NoShorter(a, x, b, y, c);
    NoShorter(b, y, a, x, c);
    assert a == (a + x)[..|a|] == (b + y)[..|b|] == b;
    assert x == (a + x)[|a|..] == (b + y)[|b|..] == y;
  }

  ghost predicate Separable(v: seq<string>) { forall i | 0 <= i < |v| :: '|' !in v[i] }

  lemma {:induction false} LabelledInjective(labels: seq<string>, v: seq<string>, w: seq<string>)
    requires |labels| == |v| == |w| && Separable(v) && Separable(w) && Labelled(labels, v) == Labelled(labels, w)
    ensures v == w
  {
    if labels != [] {
      var head := "|" + labels[0];
      var x, y := v[0] + Labelled(labels[1..], v[1..]), w[0] + Labelled(labels[1..], w[1..]);
      assert Labelled(labels, v) == head + x && Labelled(labels, w) == head + y;
      assert x == (head + x)[|head|..] == (head + y)[|head|..] == y;
      CutAtSeparator(v[0], Labelled(labels[1..], v[1..]), w[0], Labelled(labels[1..], w[1..]), '|');
      LabelledInjective(labels[1..], v[1..], w[1..]);
      assert v == [v[0]] + v[1..] && w == [w[0]] + w[1..];
    }
  }

  lemma DigitsOnly(n: nat, c: char)
    requires !Decimal.IsDigit(c)
    ensures c !in Decimal.Print(n)
  {
  }

  /** Two numerals around a separator. */
  lemma PairInjective(a: nat, x: string, b: nat, y: string, c: char)
    requires !Decimal.IsDigit(c) && Decimal.Print(a) + ([c] + x) == Decimal.Print(b) + ([c] + y)
    ensures a == b && x == y
  {
    CutAtSeparator(Decimal.Print(a), [c] + x, Decimal.Print(b), [c] + y, c);
    Decimal.PrintInjective(a, b);
    assert x == ([c] + x)[1..] == ([c] + y)[1..] == y;
  }

  lemma PortInjective(p: Port, q: Port)
    requires PortStr(p) == PortStr(q)
    ensures p == q
  {
    match (p, q)
    case (AnyPort, _) => OnlyAnyIsAny(q);
    case (_, AnyPort) => OnlyAnyIsAny(p);
    case (Exact(n), Exact(m)) => Decimal.PrintInjective(n, m);
    case (Range(lo, hi), Range(lo', hi')) =>
      assert PortStr(p) == Decimal.Print(lo) + (['-'] + Decimal.Print(hi));
      assert PortStr(q) == Decimal.Print(lo') + (['-'] + Decimal.Print(hi'));
      PairInjective(lo, Decimal.Print(hi), lo', Decimal.Print(hi'), '-');
      Decimal.PrintInjective(hi, hi');
    case (Exact(n), Range(lo, hi)) => DashIsNotANumeral(n, lo, hi);
    case (Range(lo, hi), Exact(n)) => DashIsNotANumeral(n, lo, hi);
  }

  lemma OnlyAnyIsAny(p: Port)
    ensures PortStr(p) == "any" <==> p == AnyPort
  {
    if p != AnyPort {
      assert Decimal.IsDigit(PortStr(p)[0]);
    }
  }

  lemma DashIsNotANumeral(n: nat, lo: nat, hi: nat)
    ensures Decimal.Print(n) != Decimal.Print(lo) + "-" + Decimal.Print(hi)
  {
    var s := Decimal.Print(lo) + "-" + Decimal.Print(hi);
    assert s[|Decimal.Print(lo)|] == '-';
  }

  lemma DottedInjective(a: nat, b: nat, c: nat, d: nat, a': nat, b': nat, c': nat, d': nat)
    requires Dotted(a, b, c, d) == Dotted(a', b', c', d')
    ensures a == a' && b == b' && c == c' && d == d'
  {
    DotInjective(a, Dot(b, Dot(c, Decimal.Print(d))), a', Dot(b', Dot(c', Decimal.Print(d'))));
    DotInjective(b, Dot(c, Decimal.Print(d)), b', Dot(c', Decimal.Print(d')));
    DotInjective(c, Decimal.Print(d), c', Decimal.Print(d'));
    Decimal.PrintInjective(d, d');
  }

  lemma DotInjective(n: nat, x: string, m: nat, y: string)
    requires Dot(n, x) == Dot(m, y)
    ensures n == m && x == y
  {
    PairInjective(n, x, m, y, '.');
  }

  lemma SlashSplits(x: string, p: nat, y: string, q: nat)
    requires '/' !in x && '/' !in y && x + "/" + Decimal.Print(p) == y + "/" + Decimal.Print(q)
    ensures x == y && p == q
  {
    assert x + "/" + Decimal.Print(p) == x + (['/'] + Decimal.Print(p))
      && y + "/" + Decimal.Print(q) == y + (['/'] + Decimal.Print(q));
    CutAtSeparator(x, ['/'] + Decimal.Print(p), y, ['/'] + Decimal.Print(q), '/');
    assert Decimal.Print(p) == (['/'] + Decimal.Print(p))[1..] == (['/'] + Decimal.Print(q))[1..] == Decimal.Print(q);
    Decimal.PrintInjective(p, q);
  }

  lemma SlashIsNotAny(x: string, p: nat)
    ensures x + "/" + Decimal.Print(p) != "any"
  {
    assert (x + "/" + Decimal.Print(p))[|x|] == '/';
  }

  lemma DottedIsClean(a: nat, b: nat, c: nat, d: nat, ch: char)
    requires !Decimal.IsDigit(ch) && ch != '.'
    ensures ch !in Dotted(a, b, c, d)
  {
    DigitsOnly(a, ch);
    DigitsOnly(b, ch);
    DigitsOnly(c, ch);
    DigitsOnly(d, ch);
  }

  lemma Cidr4Injective(x: Cidr4, y: Cidr4)
    requires Cidr4Str(x) == Cidr4Str(y)
    ensures x == y
  {
    if x.Cidr4? && y.Cidr4? {
      DottedIsClean(x.a, x.b, x.c, x.d, '/');
      DottedIsClean(y.a, y.b, y.c, y.d, '/');
      SlashSplits(Dotted(x.a, x.b, x.c, x.d), x.prefix, Dotted(y.a, y.b, y.c, y.d), y.prefix);
      DottedInjective(x.a, x.b, x.c, x.d, y.a, y.b, y.c, y.d);
    } else if x.Cidr4? {
      SlashIsNotAny(Dotted(x.a, x.b, x.c, x.d), x.prefix);
    } else if y.Cidr4? {
      SlashIsNotAny(Dotted(y.a, y.b, y.c, y.d), y.prefix);
    }
  }

  predicate WellFormed6(c: Cidr6) { c.Cidr6? ==> |c.addr| == 16 }

  predicate WellFormed(r: Rule) { WellFormed6(r.src6) && WellFormed6(r.dst6) }

  lemma Cidr6Injective(show: Show6, x: Cidr6, y: Cidr6)
    requires Legible(show) && WellFormed6(x) && WellFormed6(y) && Cidr6Str(show, x) == Cidr6Str(show, y)
    ensures x == y
  {
    if x.Cidr6? && y.Cidr6? {
      SlashSplits(show(x.addr), x.prefix, show(y.addr), y.prefix);
    } else if x.Cidr6? {
      SlashIsNotAny(show(x.addr), x.prefix);
    } else if y.Cidr6? {
      SlashIsNotAny(show(y.addr), y.prefix);
    }
  }

  lemma Cidr4Clean(c: Cidr4)
    ensures '|' !in Cidr4Str(c)
  {
    if c.Cidr4? {
      DottedIsClean(c.a, c.b, c.c, c.d, '|');
    }
  }

  lemma Cidr6Clean(show: Show6, c: Cidr6)
    requires Legible(show) && WellFormed6(c)
    ensures '|' !in Cidr6Str(show, c)
  {
  }

  lemma WordsSeparable(r: Rule)
    ensures '|' !in FamilyStr(r.family) && '|' !in DirectionStr(r.dir) && '|' !in IfaceStr(r.iface)
    ensures '|' !in ProtoStr(r.proto) && '|' !in CtStateStr(r.ctState) && '|' !in CtDirStr(r.ctDir)
  {
  }

  lemma PortSeparable(p: Port)
    ensures '|' !in PortStr(p)
  {
  }

  lemma ValuesSeparable(show: Show6, r: Rule)
    requires Legible(show) && WellFormed(r)
    ensures Separable(Values(show, r))
  {
    Cidr4Clean(r.src);
    Cidr4Clean(r.dst);
    Cidr6Clean(show, r.src6);
    Cidr6Clean(show, r.dst6);
    PortSeparable(r.sport);
    PortSeparable(r.dport);
    WordsSeparable(r);
    DigitsOnly(r.ifindex, '|');
  }

  /** Two rules have the same key exactly when they agree in every match field of their family. */
  lemma KeyIsExact(show: Show6, r: Rule, s: Rule)
    requires Legible(show) && WellFormed(r) && WellFormed(s)
    ensures Key(show, r) == Key(show, s) <==> SameMatch(r, s)
  {
    if Key(show, r) == Key(show, s) {
      var v, w := Values(show, r), Values(show, s);
      assert Labelled(Labels, v) == Key(show, r)[3..] == Key(show, s)[3..] == Labelled(Labels, w);
      ValuesSeparable(show, r);
      ValuesSeparable(show, s);
      LabelledInjective(Labels, v, w);
      ValuesDetermine(show, r, s);
    }
  }

  lemma WordsDetermine(r: Rule, s: Rule)
    requires FamilyStr(r.family) == FamilyStr(s.family) && DirectionStr(r.dir) == DirectionStr(s.dir)
    requires IfaceStr(r.iface) == IfaceStr(s.iface)
    requires ProtoStr(r.proto) == ProtoStr(s.proto) && CtStateStr(r.ctState) == CtStateStr(s.ctState)
    requires CtDirStr(r.ctDir) == CtDirStr(s.ctDir)
    ensures r.family == s.family && r.dir == s.dir && r.iface == s.iface && r.proto == s.proto
    ensures r.ctState == s.ctState && r.ctDir == s.ctDir
  {
    assert |IfaceStr(r.iface)| == |IfaceStr(s.iface)| && IfaceStr(r.iface)[0] == IfaceStr(s.iface)[0];
    assert |ProtoStr(r.proto)| == |ProtoStr(s.proto)| && ProtoStr(r.proto)[0] == ProtoStr(s.proto)[0];
    assert FamilyStr(r.family)[3] == FamilyStr(s.family)[3];
    assert |DirectionStr(r.dir)| == |DirectionStr(s.dir)| && DirectionStr(r.dir)[0] == DirectionStr(s.dir)[0];
    assert CtStateStr(r.ctState)[0] == CtStateStr(s.ctState)[0];
    assert CtDirStr(r.ctDir)[0] == CtDirStr(s.ctDir)[0];
  }

  lemma ValuesDetermine(show: Show6, r: Rule, s: Rule)
    requires Legible(show) && WellFormed(r) && WellFormed(s) && Values(show, r) == Values(show, s)
    ensures SameMatch(r, s)
  {
    var v, w := Values(show, r), Values(show, s);
    assert v[0] == w[0] && v[1] == w[1] && v[2] == w[2] && v[3] == w[3] && v[4] == w[4] && v[5] == w[5] && v[6] == w[6];
    assert v[7] == w[7] && v[8] == w[8] && v[9] == w[9] && v[10] == w[10];
    WordsDetermine(r, s);
    Decimal.PrintInjective(r.ifindex, s.ifindex);
    PortInjective(r.sport, s.sport);
    PortInjective(r.dport, s.dport);
    if r.family == IPv4 {
      Cidr4Injective(r.src, s.src);
      Cidr4Injective(r.dst, s.dst);
    } else {
      Cidr6Injective(show, r.src6, s.src6);
      Cidr6Injective(show, r.dst6, s.dst6);
    }
  }

  // ---------------------------------------------------------------- duplicates in a payload

  ghost predicate Duplicated(rules: seq<Rule>) { exists i, j :: 0 <= i < j < |rules| && SameMatch(rules[i], rules[j]) }

  function Keys(show: Show6, rules: seq<Rule>): seq<string> {
    seq(|rules|, i requires 0 <= i < |rules| => Key(show, rules[i]))
  }

  /** Collect the keys that occur twice. The payload is rejected exactly when two of its rules agree
      in all match fields, and every key lists just the rules that carry it. */
  method DuplicatedKeys(show: Show6, rules: seq<Rule>) returns (duplicated: set<string>, indexes: map<string, seq<nat>>)
    requires Legible(show) && forall r | r in rules :: WellFormed(r)
    ensures Indexed(Keys(show, rules), |rules|, indexes)
    ensures forall k :: k in duplicated <==> k in indexes && |indexes[k]| > 1
    ensures duplicated != {} <==> Duplicated(rules)
  {
    indexes := IndexKeys(Keys(show, rules));
    duplicated := set k | k in indexes && |indexes[k]| > 1;
    DuplicatesAreStructural(show, rules, indexes);
    if k :| k in indexes && |indexes[k]| > 1 {
      assert k in duplicated;
    }
  }

  method IndexKeys(keys: seq<string>) returns (indexes: map<string, seq<nat>>)
    ensures Indexed(keys, |keys|, indexes)
  {
    indexes := map[];
    for n := 0 to |keys|
      invariant Indexed(keys, n, indexes)
    {
      var k := keys[n];
      var s := if k in indexes then indexes[k] else [];
      AddPosition(keys, n, s);
      ghost var before := indexes;
      indexes := indexes[k := s + [n]];
      forall j | j in indexes ensures Positions(keys, n + 1, j, indexes[j]) {
        if j != k {
          KeepPositions(keys, n, j, before[j]);
        }
      }
    }
  }

  lemma AddPosition(keys: seq<string>, n: nat, s: seq<nat>)
    requires n < |keys| && Positions(keys, n, keys[n], s)
    ensures Positions(keys, n + 1, keys[n], s + [n])
  {
    assert forall i | 0 <= i < |s| :: s[i] in s;
  }

  lemma KeepPositions(keys: seq<string>, n: nat, k: string, s: seq<nat>)
    requires n < |keys| && keys[n] != k && Positions(keys, n, k, s)
    ensures Positions(keys, n + 1, k, s)
  {
  }

  /** The index of the first n keys: the increasing positions of each key. */
  ghost predicate Indexed(keys: seq<string>, n: nat, indexes: map<string, seq<nat>>)
    requires n <= |keys|
  {
    && (forall i | 0 <= i < n :: keys[i] in indexes)
    && (forall k {:trigger Positions(keys, n, k, indexes[k])} | k in indexes :: Positions(keys, n, k, indexes[k]))
  }

  ghost predicate Positions(keys: seq<string>, n: nat, k: string, s: seq<nat>)
    requires n <= |keys|
  {
    Increasing(s) && forall i :: i in s <==> 0 <= i < n && keys[i] == k
  }

  predicate Increasing(s: seq<nat>) { forall i, j | 0 <= i < j < |s| :: s[i] < s[j] }

  lemma RepeatedKeys(keys: seq<string>, indexes: map<string, seq<nat>>)
    requires Indexed(keys, |keys|, indexes)
    ensures (exists k :: k in indexes && |indexes[k]| > 1) <==> exists i, j :: 0 <= i < j < |keys| && keys[i] == keys[j]
  {
    if k :| k in indexes && |indexes[k]| > 1 {
      var i, j := indexes[k][0], indexes[k][1];
      assert Positions(keys, |keys|, k, indexes[k]);
      assert i in indexes[k] && j in indexes[k] && i < j;
    }
    if i, j :| 0 <= i < j < |keys| && keys[i] == keys[j] {
      var s := indexes[keys[i]];
      assert Positions(keys, |keys|, keys[i], indexes[keys[i]]);
      assert i in s && j in s;
    }
  }

  /** Finding equal keys is finding rules that match alike. */
  lemma DuplicatesAreStructural(show: Show6, rules: seq<Rule>, indexes: map<string, seq<nat>>)
    requires Indexed(Keys(show, rules), |rules|, indexes) && Legible(show) && forall r | r in rules :: WellFormed(r)
    ensures (exists k :: k in indexes && |indexes[k]| > 1) <==> Duplicated(rules)
  {
    var keys := Keys(show, rules);
    RepeatedKeys(keys, indexes);
    forall i, j | 0 <= i < j < |rules| ensures keys[i] == keys[j] <==> SameMatch(rules[i], rules[j]) {
      KeyIsExact(show, rules[i], rules[j]);
    }
    if i, j :| 0 <= i < j < |keys| && keys[i] == keys[j] {
      assert SameMatch(rules[i], rules[j]);
    }
    if i, j :| 0 <= i < j < |rules| && SameMatch(rules[i], rules[j]) {
      assert keys[i] == keys[j];
    }
  }

  // ---------------------------------------------------------------- address blocks

  function Probe(j: nat): bv8
    requires j < 8
  {
    match j case 0 => 0x80 case 1 => 0x40 case 2 => 0x20 case 3 => 0x10 case 4 => 8 case 5 => 4 case 6 => 2 case 7 => 1
  }

  /** Bit j of a byte, the most significant first. */
  predicate BitOf(x: bv8, j: nat)
    requires j < 8
  {
    x & Probe(j) != 0
  }

  /** Bit k of an address. */
  predicate BitAt(s: seq<bv8>, k: nat)
    requires k < 8 * |s|
  {
    BitOf(s[k / 8], k % 8)
  }

  function PartMask(rem: nat): bv8
    requires 0 < rem < 8
  {
    0xFF << (8 - rem)
  }

  lemma PartMaskIs(rem: nat)
    requires 0 < rem < 8
    ensures PartMask(rem) == match rem
      case 1 => 0x80 case 2 => 0xC0 case 3 => 0xE0 case 4 => 0xF0 case 5 => 0xF8 case 6 => 0xFC case _ => 0xFE
  {
  }

  lemma PartMaskBits(x: bv8, rem: nat, j: nat)
    requires 0 < rem < 8 && j < 8
    ensures BitOf(x & PartMask(rem), j) <==> j < rem && BitOf(x, j)
  {
    PartMaskIs(rem);
  }

  function MaskedByte(x: bv8, i: nat, prefix: nat): bv8 {
    if 8 * i + 8 <= prefix then x else if prefix <= 8 * i then 0 else x & PartMask(prefix - 8 * i)
  }

  function Masked(s: seq<bv8>, prefix: nat): seq<bv8> {
    seq(|s|, i requires 0 <= i < |s| => MaskedByte(s[i], i, prefix))
  }

  /** Zero an address behind its prefix, in place. */
  method MaskPrefix(bytes: array<bv8>, prefix: nat)
    requires bytes.Length == 16 && prefix <= 128
    modifies bytes
    ensures bytes[..] == Masked(old(bytes[..]), prefix)
  {
    if prefix < 128 {
      var full, rem := prefix / 8, prefix % 8;
      var from := full;
      if rem != 0 {
        bytes[full] := bytes[full] & PartMask(rem);
        from := full + 1;
      }
      for i := from to 16
        invariant forall k | 0 <= k < 16 ::
          bytes[k] == if k < i then MaskedByte(old(bytes[k]), k, prefix) else old(bytes[k])
      {
        bytes[i] := 0;
      }
    }
  }

  /** Masking keeps exactly the bits in front of the prefix. */
  lemma MaskedBits(s: seq<bv8>, prefix: nat, k: nat)
    requires k < 8 * |s|
    ensures BitAt(Masked(s, prefix), k) <==> k < prefix && BitAt(s, k)
  {
    var i := k / 8;
    if 8 * i < prefix < 8 * i + 8 {
      PartMaskBits(s[i], prefix - 8 * i, k % 8);
    } else {
      assert 0 & Probe(k % 8) == 0;
    }
  }

  lemma BitsDetermineByte(x: bv8, y: bv8)
    requires forall j | 0 <= j < 8 :: BitOf(x, j) <==> BitOf(y, j)
    ensures x == y
  {
    assert BitOf(x, 0) <==> BitOf(y, 0);
    assert BitOf(x, 1) <==> BitOf(y, 1);
    assert BitOf(x, 2) <==> BitOf(y, 2);
    assert BitOf(x, 3) <==> BitOf(y, 3);
    assert BitOf(x, 4) <==> BitOf(y, 4);
    assert BitOf(x, 5) <==> BitOf(y, 5);
    assert BitOf(x, 6) <==> BitOf(y, 6);
    assert BitOf(x, 7) <==> BitOf(y, 7);
  }

  lemma BitsDetermine(s: seq<bv8>, t: seq<bv8>)
    requires |s| == |t| && forall k | 0 <= k < 8 * |s| :: BitAt(s, k) <==> BitAt(t, k)
    ensures s == t
  {
    forall i | 0 <= i < |s| ensures s[i] == t[i] {
      forall j | 0 <= j < 8 ensures BitOf(s[i], j) <==> BitOf(t[i], j) {
        assert BitAt(s, 8 * i + j) <==> BitAt(t, 8 * i + j);
      }
      BitsDetermineByte(s[i], t[i]);
    }
  }

  /** The address lies in the block. */
  ghost predicate Covers(block: seq<bv8>, prefix: nat, addr: seq<bv8>)
    requires |block| == |addr| == 16 && prefix <= 128
  {
    forall k | 0 <= k < prefix :: BitAt(block, k) <==> BitAt(addr, k)
  }

  ghost predicate SameBlock(a: seq<bv8>, b: seq<bv8>, prefix: nat)
    requires |a| == |b| == 16 && prefix <= 128
  {
    forall x: seq<bv8> | |x| == 16 :: Covers(a, prefix, x) <==> Covers(b, prefix, x)
  }

  lemma MaskedIsCanonical(a: seq<bv8>, b: seq<bv8>, prefix: nat)
    requires |a| == |b| == 16 && prefix <= 128
    ensures Masked(a, prefix) == Masked(b, prefix) <==> SameBlock(a, b, prefix)
  {
    if SameBlock(a, b, prefix) {
      assert Covers(a, prefix, a) && Covers(b, prefix, a);
      forall k | 0 <= k < 128 ensures BitAt(Masked(a, prefix), k) <==> BitAt(Masked(b, prefix), k) {
        MaskedBits(a, prefix, k);
        MaskedBits(b, prefix, k);
      }
      BitsDetermine(Masked(a, prefix), Masked(b, prefix));
    }
    if Masked(a, prefix) == Masked(b, prefix) {
      forall k | 0 <= k < prefix ensures BitAt(a, k) <==> BitAt(b, k) {
        MaskedBits(a, prefix, k);
        MaskedBits(b, prefix, k);
      }
    }
  }

  /** Blocks of one prefix length print alike exactly when they hold the same addresses. */
  lemma BlockHasOneText(show: Show6, a: seq<bv8>, b: seq<bv8>, prefix: nat)
    requires Legible(show) && |a| == |b| == 16 && prefix <= 128
    ensures Cidr6Str(show, Cidr6(Masked(a, prefix), prefix)) == Cidr6Str(show, Cidr6(Masked(b, prefix), prefix))
      <==> SameBlock(a, b, prefix)
  {
    MaskedIsCanonical(a, b, prefix);
    if Cidr6Str(show, Cidr6(Masked(a, prefix), prefix)) == Cidr6Str(show, Cidr6(Masked(b, prefix), prefix)) {
      Cidr6Injective(show, Cidr6(Masked(a, prefix), prefix), Cidr6(Masked(b, prefix), prefix));
    }
  }
}
