/** Dotted addresses as strings, and the filter that recognises floating ones. */
module Addresses {
  import opened Wrappers

  // ---------------------------------------------------------------- splitting at dots

  function Split(s: string): (parts: seq<string>)
    ensures |parts| >= 1
  {
    if s == "" then [""]
    else
      var rest := Split(s[1..]);
      if s[0] == '.' then [""] + rest else [[s[0]] + rest[0]] + rest[1..]
  }

  lemma {:induction false} SplitAtDot(part: string, rest: string)
    requires '.' !in part
    ensures Split(part) == [part]
    ensures Split(part + "." + rest) == [part] + Split(rest)
  {
    if part == "" {
      assert ("" + "." + rest)[1..] == rest;
    } else {
      SplitAtDot(part[1..], rest);
      assert (part + "." + rest)[1..] == part[1..] + "." + rest;
      assert [part[0]] + part[1..] == part;
    }
  }

  // ---------------------------------------------------------------- reading a number

  predicate IsDigit(c: char) { '0' <= c <= '9' }

  function DigitOf(c: char): nat
    requires IsDigit(c)
  {
    c as int - '0' as int
  }

  predicate AllDigits(s: string) {
    forall c :: c in s ==> IsDigit(c)
  }

  /** The digits a string starts with. */
  function LeadingDigits(s: string): (ds: string)
    ensures AllDigits(ds)
  {
    if s == "" || !IsDigit(s[0]) then "" else [s[0]] + LeadingDigits(s[1..])
  }

  function DecimalValue(ds: string): nat
    requires AllDigits(ds)
  {
    if ds == "" then 0 else 10 * DecimalValue(ds[..|ds| - 1]) + DigitOf(ds[|ds| - 1])
  }

  function SkipBlanks(s: string): string {
    if s != "" && (s[0] == ' ' || s[0] == '\t') then SkipBlanks(s[1..]) else s
  }

  /** A decimal read from the front of a string: blanks, a sign, digits; whatever follows is ignored. */
  function ScanInt(s: string): Option<int> {
    var t := SkipBlanks(s);
    var signed := t != "" && (t[0] == '+' || t[0] == '-');
    var ds := LeadingDigits(if signed then t[1..] else t);
    if ds == "" then None
    else
      var v: int := if signed && t[0] == '-' then -(DecimalValue(ds) as int) else DecimalValue(ds);
      if -0x8000_0000_0000_0000 <= v < 0x8000_0000_0000_0000 then Some(v) else None
  }

  // ---------------------------------------------------------------- the filter

  /** The address is in the block of the base's first three parts and its last part is 20 or more. */
  predicate Floating(ip: string, base: string) {
    var parts, ipParts := Split(base), Split(ip);
    && |parts| == 4 && |ipParts| == 4
    && ipParts[0] == parts[0] && ipParts[1] == parts[1] && ipParts[2] == parts[2]
    && var last := ScanInt(ipParts[3]); last.Some? && last.value >= 20
  }

  /** The elements of a list that satisfy a predicate, in order. */
  function Keep(p: string -> bool, xs: seq<string>): seq<string> {
    if xs == [] then [] else (if p(xs[0]) then [xs[0]] else []) + Keep(p, xs[1..])
  }

  function FloatingWith(base: string): string -> bool {
    ip => Floating(ip, base)
  }

  /** The floating addresses of a list, in order; the whole list when the base is no dotted quad. */
  function FloatingOnly(ips: seq<string>, base: string): seq<string> {
    if |Split(base)| != 4 then ips else Keep(FloatingWith(base), ips)
  }

  lemma {:induction false} KeepSnoc(p: string -> bool, xs: seq<string>, x: string)
    ensures Keep(p, xs + [x]) == Keep(p, xs) + if p(x) then [x] else []
  {
    if xs == [] {
      assert xs + [x] == [x] && [x][1..] == [];
    } else {
      assert (xs + [x])[1..] == xs[1..] + [x];
      KeepSnoc(p, xs[1..], x);
    }
  }

  lemma {:induction false} KeepKeeps(p: string -> bool, xs: seq<string>, x: string)
    ensures x in Keep(p, xs) <==> x in xs && p(x)
  {
    if xs != [] {
      KeepKeeps(p, xs[1..], x);
    }
  }

  lemma {:induction false} KeepDistinct(p: string -> bool, xs: seq<string>)
    requires Distinct(xs)
    ensures Distinct(Keep(p, xs))
  {
    if xs != [] {
      KeepDistinct(p, xs[1..]);
      KeepKeeps(p, xs[1..], xs[0]);
      assert xs[0] !in xs[1..];
    }
  }

  method FilterFloatingIPs(ips: seq<string>, baseIP: string) returns (filtered: seq<string>)
    ensures filtered == FloatingOnly(ips, baseIP)
  {
    var parts := Split(baseIP);
    if |parts| != 4 {
      return ips;
    }
    filtered := [];
    for i := 0 to |ips|
      invariant filtered == FloatingOnly(ips[..i], baseIP)
    {
      assert ips[..i] + [ips[i]] == ips[..i + 1];
      KeepSnoc(FloatingWith(baseIP), ips[..i], ips[i]);
      var keep := MatchesBlock(ips[i], parts, baseIP);
      if keep {
        filtered := filtered + [ips[i]];
      }
    }
    assert ips[..|ips|] == ips;
  }

  /** The body of the filter's loop. */
  method MatchesBlock(ip: string, parts: seq<string>, ghost baseIP: string) returns (keep: bool)
    requires parts == Split(baseIP) && |parts| == 4
    ensures keep == Floating(ip, baseIP)
  {
    var ipParts := Split(ip);
    if |ipParts| != 4 {
      return false;
    }
    if ipParts[0] == parts[0] && ipParts[1] == parts[1] && ipParts[2] == parts[2] {
      var lastOctet := ScanInt(ipParts[3]);
      if lastOctet.Some? {
        if lastOctet.value >= 20 {
          return true;
        }
      }
    }
    return false;
  }

  lemma FilterKeeps(ips: seq<string>, base: string, ip: string)
    requires |Split(base)| == 4
    ensures ip in FloatingOnly(ips, base) <==> ip in ips && Floating(ip, base)
  {
    KeepKeeps(FloatingWith(base), ips, ip);
  }

  /** The filter keeps a list free of repetitions. */
  lemma FilterDistinct(ips: seq<string>, base: string)
    requires Distinct(ips)
    ensures Distinct(FloatingOnly(ips, base))
  {
    KeepDistinct(FloatingWith(base), ips);
  }

  // ---------------------------------------------------------------- addresses as AWS writes them

  function Decimal(n: nat): (s: string)
    ensures s != "" && AllDigits(s)
  {
    if n < 10 then [('0' as int + n) as char] else Decimal(n / 10) + [('0' as int + n % 10) as char]
  }

  lemma {:induction false} DecimalReadsBack(n: nat)
    ensures DecimalValue(Decimal(n)) == n
  {
    if n < 10 {
      assert Decimal(n)[..0] == "";
    } else {
      DecimalReadsBack(n / 10);
      assert Decimal(n)[..|Decimal(n)| - 1] == Decimal(n / 10);
    }
  }

  lemma {:induction false} DigitsLead(s: string)
    requires AllDigits(s)
    ensures LeadingDigits(s) == s
  {
    if s != "" {
      assert forall c :: c in s[1..] ==> c in s;
      DigitsLead(s[1..]);
    }
  }

  lemma DecimalScans(n: nat)
    requires n < 0x8000_0000_0000_0000
    ensures ScanInt(Decimal(n)) == Some(n)
  {
    var s := Decimal(n);
    assert s[0] in s;
    DigitsLead(s);
    DecimalReadsBack(n);
  }

  datatype Quad = Quad(a: nat, b: nat, c: nat, d: nat)

  function Dotted(q: Quad): string {
    Decimal(q.a) + "." + (Decimal(q.b) + "." + (Decimal(q.c) + "." + Decimal(q.d)))
  }

  lemma DottedSplits(q: Quad)
    ensures Split(Dotted(q)) == [Decimal(q.a), Decimal(q.b), Decimal(q.c), Decimal(q.d)]
  {
    SplitAtDot(Decimal(q.d), "");
    SplitAtDot(Decimal(q.c), Decimal(q.d));
    SplitAtDot(Decimal(q.b), Decimal(q.c) + "." + Decimal(q.d));
    SplitAtDot(Decimal(q.a), Decimal(q.b) + "." + (Decimal(q.c) + "." + Decimal(q.d)));
  }

  /** On addresses in dotted decimal the filter means what it says: same first three numbers, last one 20 or more. */
  lemma FloatingExactly(q: Quad, base: Quad)
    requires q.d < 0x8000_0000_0000_0000
    ensures Floating(Dotted(q), Dotted(base)) <==> q.a == base.a && q.b == base.b && q.c == base.c && q.d >= 20
  {
    DottedSplits(q);
    DottedSplits(base);
    DecimalScans(q.d);
    DecimalReadsBack(q.a);
    DecimalReadsBack(q.b);
    DecimalReadsBack(q.c);
    DecimalReadsBack(base.a);
    DecimalReadsBack(base.b);
    DecimalReadsBack(base.c);
  }
}
