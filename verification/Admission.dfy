/**
  The admission webhook: who may touch a protected namespace, and the advisory checks on
  Deployments and Ingresses, above all the comparison of memory quantities in 64 bits.
 */
module Admission {
  import opened Seqs
  import opened Strings

  const U64_MAX: nat := 0xFFFF_FFFF_FFFF_FFFF

  // ------------------------------------------------------------ white space

  /** The characters with the Unicode property White_Space. */
  predicate IsSpace(c: char) {
    var n := c as int;
    || 0x09 <= n <= 0x0D || n == 0x20 || n == 0x85 || n == 0xA0 || n == 0x1680
    || 0x2000 <= n <= 0x200A || n == 0x2028 || n == 0x2029 || n == 0x202F || n == 0x205F || n == 0x3000
  }

  predicate Blank(s: string) {
    forall k :: 0 <= k < |s| ==> IsSpace(s[k])
  }

  function TrimStart(s: string): string {
    if s != "" && IsSpace(s[0]) then TrimStart(s[1..]) else s
  }

  function TrimEnd(s: string): string {
    if s != "" && IsSpace(s[|s| - 1]) then TrimEnd(s[..|s| - 1]) else s
  }

  function Trim(s: string): string {
    TrimEnd(TrimStart(s))
  }

  /** Text that trimming leaves alone. */
  predicate Solid(t: string) {
    t != "" && !IsSpace(t[0]) && !IsSpace(t[|t| - 1])
  }

  lemma {:induction false} TrimStartOfPadded(pad: string, t: string)
    requires Blank(pad) && (t == "" || !IsSpace(t[0]))
    ensures TrimStart(pad + t) == t
    decreases |pad|
  {
    if pad == "" {
      assert pad + t == t;
    } else {
      assert (pad + t)[1..] == pad[1..] + t;
      TrimStartOfPadded(pad[1..], t);
    }
  }

  lemma {:induction false} TrimEndOfPadded(t: string, pad: string)
    requires Blank(pad) && (t == "" || !IsSpace(t[|t| - 1]))
    ensures TrimEnd(t + pad) == t
    decreases |pad|
  {
    if pad == "" {
      assert t + pad == t;
    } else {
      assert (t + pad)[..|t + pad| - 1] == t + pad[..|pad| - 1];
      TrimEndOfPadded(t, pad[..|pad| - 1]);
    }
  }

  lemma TrimOfPadded(before: string, t: string, after: string)
    requires Blank(before) && Solid(t) && Blank(after)
    ensures Trim(before + (t + after)) == t
  {
    TrimStartOfPadded(before, t + after);
    TrimEndOfPadded(t, after);
  }

  // ------------------------------------------------------------ numbers

  predicate IsDigit(c: char) {
    '0' <= c <= '9'
  }

  predicate AllDigits(s: string) {
    forall k :: 0 <= k < |s| ==> IsDigit(s[k])
  }

  predicate IsNumber(s: string) {
    s != "" && AllDigits(s)
  }

  /** The number a digit string writes. */
  function Value(digits: string): nat
    requires AllDigits(digits)
  {
    if digits == "" then 0
    else 10 * Value(digits[..|digits| - 1]) + (digits[|digits| - 1] as int - '0' as int)
  }

  /** Reads digits from the left with checked arithmetic. */
  function ParseDigits(acc: nat, s: string): Option<nat>
    decreases |s|
  {
    if s == "" then Some(acc)
    else if !IsDigit(s[0]) then None
    else if acc * 10 > U64_MAX then None
    else
      var next := acc * 10 + (s[0] as int - '0' as int);
      if next > U64_MAX then None else ParseDigits(next, s[1..])
  }

  /** The digits of a number that may carry a plus sign. */
  function Unsigned(s: string): string {
    if s != "" && s[0] == '+' then s[1..] else s
  }

  function ParseU64(s: string): Option<nat> {
    if Unsigned(s) == "" then None else ParseDigits(0, Unsigned(s))
  }

  function Min(a: nat, b: nat): nat {
    if a < b then a else b
  }

  function SaturatingMul(a: nat, b: nat): nat {
    Min(a * b, U64_MAX)
  }

  lemma {:induction false} ValueGrows(a: string, b: string)
    requires AllDigits(a + b)
    ensures AllDigits(a) && Value(a) <= Value(a + b)
    decreases |b|
  {
    assert forall k :: 0 <= k < |a| ==> a[k] == (a + b)[k];
    if b == "" {
      assert a + b == a;
    } else {
      var s := a + b;
      assert s[..|s| - 1] == a + b[..|b| - 1];
      assert forall k :: 0 <= k < |s| - 1 ==> s[..|s| - 1][k] == s[k];
      ValueGrows(a, b[..|b| - 1]);
    }
  }

  /** Reading on after the digits `done`: the number is the value of all digits if that fits 64 bits. */
  lemma {:induction false} ParseDigitsMeans(done: string, s: string)
    requires AllDigits(done) && Value(done) <= U64_MAX
    ensures ParseDigits(Value(done), s)
         == if AllDigits(done + s) && Value(done + s) <= U64_MAX then Some(Value(done + s)) else None
    decreases |s|
  {
    if s == "" {
      assert done + s == done;
    } else if !IsDigit(s[0]) {
      assert (done + s)[|done|] == s[0];
    } else {
      var more := done + [s[0]];
      assert more[..|more| - 1] == done;
      assert more + s[1..] == done + s;
      if Value(more) <= U64_MAX {
        ParseDigitsMeans(more, s[1..]);
      } else if AllDigits(done + s) {
        ValueGrows(more, s[1..]);
      }
    }
  }

  lemma ParseU64Means(s: string)
    ensures ParseU64(s)
         == if IsNumber(Unsigned(s)) && Value(Unsigned(s)) <= U64_MAX then Some(Value(Unsigned(s))) else None
  {
    assert "" + Unsigned(s) == Unsigned(s);
    ParseDigitsMeans("", Unsigned(s));
  }

  // ------------------------------------------------------------ quantities

  datatype Unit = Ki | Mi | Gi | Ti | K | M | G | T | Bare

  function Suffix(u: Unit): string {
    match u
    case Ki => "Ki" case Mi => "Mi" case Gi => "Gi" case Ti => "Ti"
    case K => "K" case M => "M" case G => "G" case T => "T"
    case Bare => ""
  }

  function Multiplier(u: Unit): (m: nat)
    ensures m >= 1
  {
    match u
    case Ki => 1_024
    case Mi => 1_048_576
    case Gi => 1_073_741_824
    case Ti => 1_099_511_627_776
    case K => 1_000
    case M => 1_000_000
    case G => 1_000_000_000
    case T => 1_000_000_000_000
    case Bare => 1
  }

  /** The first suffix that fits, in the order the source tries them, and what is in front of it. */
  function SplitUnit(s: string): (string, Unit) {
    var ki, mi, gi, ti := StripSuffix(s, "Ki"), StripSuffix(s, "Mi"), StripSuffix(s, "Gi"), StripSuffix(s, "Ti");
    var k, m, g, t := StripSuffix(s, "K"), StripSuffix(s, "M"), StripSuffix(s, "G"), StripSuffix(s, "T");
    if ki.Some? then (ki.value, Ki)
    else if mi.Some? then (mi.value, Mi)
    else if gi.Some? then (gi.value, Gi)
    else if ti.Some? then (ti.value, Ti)
    else if k.Some? then (k.value, K)
    else if m.Some? then (m.value, M)
    else if g.Some? then (g.value, G)
    else if t.Some? then (t.value, T)
    else (s, Bare)
  }

  function Bytes(quantity: string): nat {
    var (number, unit) := SplitUnit(Trim(quantity));
    match ParseU64(Trim(number))
    case Some(n) => SaturatingMul(n, Multiplier(unit))
    case None => U64_MAX
  }

  /** The digits of a quantity, without white space, sign and suffix. */
  function Digits(quantity: string): string {
    Unsigned(Trim(SplitUnit(Trim(quantity)).0))
  }

  function UnitOf(quantity: string): Unit {
    SplitUnit(Trim(quantity)).1
  }

  /** A quantity the parser can read: digits in front of a known suffix. */
  predicate Readable(quantity: string) {
    IsNumber(Digits(quantity))
  }

  /** The bytes a readable quantity stands for, unbounded. */
  function Amount(quantity: string): nat
    requires Readable(quantity)
  {
    Value(Digits(quantity)) * Multiplier(UnitOf(quantity))
  }

  /** On all inputs: the amount cut off at 2^64 - 1, however it overflows; else the maximum. */
  lemma BytesMeans(quantity: string)
    ensures Bytes(quantity) == if Readable(quantity) then Min(Amount(quantity), U64_MAX) else U64_MAX
  {
    var number := Trim(SplitUnit(Trim(quantity)).0);
    ParseU64Means(number);
    if Readable(quantity) && Value(Digits(quantity)) > U64_MAX {
      ProductGrows(Value(Digits(quantity)), Multiplier(UnitOf(quantity)));
    }
  }

  lemma ProductGrows(a: nat, b: nat)
    requires b >= 1
    ensures a * b >= a
  {
    assert a * b == a + a * (b - 1);
  }

  /** What people write: digits, maybe signed, spaced or padded, and a suffix. */
  lemma WrittenQuantity(written: string, before: string, sign: string, digits: string, gap: string,
                        unit: Unit, after: string)
    requires Blank(before) && Blank(gap) && Blank(after) && (unit == Bare ==> gap == "")
    requires (sign == "" || sign == "+") && IsNumber(digits)
    requires written == before + (sign + digits + gap + Suffix(unit) + after)
    ensures Digits(written) == digits && UnitOf(written) == unit
    ensures Bytes(written) == SaturatingMul(Value(digits), Multiplier(unit))
  {
    var number := sign + digits;
    var core := number + gap + Suffix(unit);
    assert number[0] == if sign == "" then digits[0] else '+';
    assert number[|number| - 1] == digits[|digits| - 1];
    NumberInCore(before, number, gap, unit, after, before + (core + after));
    BytesMeans(before + (core + after));
  }

  lemma NumberInCore(before: string, number: string, gap: string, unit: Unit, after: string, written: string)
    requires Blank(before) && Blank(gap) && Blank(after) && (unit == Bare ==> gap == "")
    requires Solid(number) && IsDigit(number[|number| - 1])
    requires written == before + (number + gap + Suffix(unit) + after)
    ensures Digits(written) == Unsigned(number) && UnitOf(written) == unit
  {
    var core := number + gap + Suffix(unit);
    assert core[0] == number[0];
    LastOfCore(number, gap, unit);
    TrimOfPadded(before, core, after);
    SplitOfCore(number, gap, unit);
    TrimOfPadded("", number, gap);
    assert "" + (number + gap) == number + gap;
  }

  lemma LastOfCore(number: string, gap: string, unit: Unit)
    requires number != "" && IsDigit(number[|number| - 1]) && (unit == Bare ==> gap == "")
    ensures var core := number + gap + Suffix(unit);
            !IsSpace(core[|core| - 1])
  {
    var core := number + gap + Suffix(unit);
    if unit == Bare {
      assert core == number;
    } else {
      assert core[|core| - 1] == Suffix(unit)[|Suffix(unit)| - 1];
    }
  }

  lemma SplitOfCore(number: string, gap: string, unit: Unit)
    requires number != "" && IsDigit(number[|number| - 1]) && (unit == Bare ==> gap == "")
    ensures SplitUnit(number + gap + Suffix(unit)) == (number + gap, unit)
  {
    var front := number + gap;
    var s := front + Suffix(unit);
    OnlyItsSuffix(s, front, unit, Ki);
    OnlyItsSuffix(s, front, unit, Mi);
    OnlyItsSuffix(s, front, unit, Gi);
    OnlyItsSuffix(s, front, unit, Ti);
    OnlyItsSuffix(s, front, unit, K);
    OnlyItsSuffix(s, front, unit, M);
    OnlyItsSuffix(s, front, unit, G);
    OnlyItsSuffix(s, front, unit, T);
    assert unit == Bare ==> s == front;
  }

  /** What is written with suffix u ends in no other suffix. */
  lemma OnlyItsSuffix(s: string, front: string, u: Unit, v: Unit)
    requires s == front + Suffix(u) && v != Bare
    requires u == Bare ==> front != "" && IsDigit(front[|front| - 1])
    ensures StripSuffix(s, Suffix(v)) == if u == v then Some(front) else None
  {
    if u == v {
      StripSuffixMeans(s, Suffix(v), front);
    } else {
      SuffixDiffers(s, front, u, v);
    }
  }

  lemma SuffixDiffers(s: string, front: string, u: Unit, v: Unit)
    requires s == front + Suffix(u) && u != v && v != Bare
    requires u == Bare ==> front != "" && IsDigit(front[|front| - 1])
    ensures StripSuffix(s, Suffix(v)) == None
  {
    if u == Bare {
      var init, digit := front[..|front| - 1], [front[|front| - 1]];
      assert s == init + digit;
      NoDigitEnds(v);
      ClashingEnds(init, digit, Suffix(v));
    } else {
      SuffixesClash(u, v);
      ClashingEnds(front, Suffix(u), Suffix(v));
    }
  }

  /** The two ends differ in their last character, or have two characters and differ in the first. */
  predicate Clash(a: string, b: string) {
    && a != "" && b != ""
    && (a[|a| - 1] != b[|b| - 1] || (|a| == 2 && |b| == 2 && a[0] != b[0]))
  }

  lemma SuffixesClash(u: Unit, v: Unit)
    requires u != v && u != Bare && v != Bare
    ensures Clash(Suffix(u), Suffix(v))
  {
  }

  lemma NoDigitEnds(v: Unit)
    requires v != Bare
    ensures Suffix(v) != "" && !IsDigit(Suffix(v)[|Suffix(v)| - 1])
  {
  }

  lemma ClashingEnds(front: string, a: string, b: string)
    requires Clash(a, b)
    ensures StripSuffix(front + a, b) == None
  {
    var s := front + a;
    assert s[|s| - 1] == a[|a| - 1];
    assert |a| == 2 ==> s[|s| - 2] == a[0];
    if |b| <= |s| {
      var tail := s[|s| - |b|..];
      assert tail[|b| - 1] == s[|s| - 1];
      assert |b| == 2 ==> tail[0] == s[|s| - 2];
    }
  }

  // ------------------------------------------------------------ the memory check

  datatype Resources = Resources(requests: Option<map<string, string>>, limits: Option<map<string, string>>)
  datatype Container = Container(name: string, resources: Option<Resources>, hasReadinessProbe: bool)

  function Memory(amounts: Option<map<string, string>>): Option<string> {
    if amounts.Some? && "memory" in amounts.value then Some(amounts.value["memory"]) else None
  }

  /** The limit and the request of a container whose limit reads as the smaller one. */
  function MemoryLimitLtRequest(c: Container): Option<(string, string)> {
    if c.resources.None? then None
    else
      var request, limit := Memory(c.resources.value.requests), Memory(c.resources.value.limits);
      if request.None? || limit.None? then None
      else if Bytes(limit.value) < Bytes(request.value) then Some((limit.value, request.value))
      else None
  }

  ghost predicate Declares(c: Container, limit: string, request: string) {
    && c.resources.Some?
    && Memory(c.resources.value.limits) == Some(limit)
    && Memory(c.resources.value.requests) == Some(request)
  }

  /**
    When a container is denounced. Readable quantities are compared as unbounded numbers, except
    that a limit of 2^64 - 1 bytes or more never warns; an unreadable limit never warns; but an
    unreadable request warns against every readable limit below 2^64 - 1.
   */
  lemma DenouncedIff(c: Container, limit: string, request: string)
    requires Declares(c, limit, request)
    ensures MemoryLimitLtRequest(c).Some?
       <==> Readable(limit) && Amount(limit) < U64_MAX && (Readable(request) ==> Amount(limit) < Amount(request))
    ensures MemoryLimitLtRequest(c).Some? ==> MemoryLimitLtRequest(c).value == (limit, request)
  {
    BytesMeans(limit);
    BytesMeans(request);
  }

  lemma FractionsAreUnreadable(written: string, whole: string, fraction: string, unit: Unit)
    requires IsNumber(whole) && IsNumber(fraction) && written == whole + "." + fraction + Suffix(unit)
    ensures !Readable(written)
  {
    var number := whole + "." + fraction;
    PointInNumber(whole, fraction);
    UnpaddedNumber(written, number, unit);
  }

  lemma PointInNumber(whole: string, fraction: string)
    requires IsNumber(whole) && IsNumber(fraction)
    ensures var number := whole + "." + fraction;
            Solid(number) && IsDigit(number[|number| - 1]) && !IsNumber(Unsigned(number))
  {
    var number := whole + "." + fraction;
    assert number[0] == whole[0] && number[|number| - 1] == fraction[|fraction| - 1];
    assert number[|whole|] == '.';
  }

  lemma UnpaddedNumber(written: string, number: string, unit: Unit)
    requires Solid(number) && IsDigit(number[|number| - 1]) && written == number + Suffix(unit)
    ensures Digits(written) == Unsigned(number)
  {
    WithoutBlanks(number, Suffix(unit));
    NumberInCore("", number, "", unit, "", written);
  }

  lemma WithoutBlanks(number: string, suffix: string)
    ensures number + suffix == "" + (number + "" + suffix + "")
  {
    assert number + "" == number && number + suffix + "" == number + suffix;
  }

  lemma FractionalRequestIsDenounced(c: Container, limit: string, request: string,
                                     whole: string, fraction: string, unit: Unit)
    requires IsNumber(whole) && IsNumber(fraction) && request == whole + "." + fraction + Suffix(unit)
    requires Declares(c, limit, request)
    ensures MemoryLimitLtRequest(c).Some? <==> Readable(limit) && Amount(limit) < U64_MAX
  {
    FractionsAreUnreadable(request, whole, fraction, unit);
    DenouncedIff(c, limit, request);
  }

  function Pow10(n: nat): nat {
    if n == 0 then 1 else 10 * Pow10(n - 1)
  }

  /** `bytes` is at least the amount that whole.fraction with this suffix stands for, compared without rounding. */
  predicate CoversFraction(bytes: nat, whole: string, fraction: string, unit: Unit)
    requires AllDigits(whole + fraction)
  {
    bytes * Pow10(|fraction|) >= Value(whole + fraction) * Multiplier(unit)
  }

  /**
    "Must never denounce a valid pod as malformed" is not met: a pod whose readable limit covers its
    fractional request is valid, and it is denounced if and only if that limit is below 2^64 - 1.
   */
  lemma ValidPodIsDenouncedIff(c: Container, limit: string, request: string,
                               whole: string, fraction: string, unit: Unit)
    requires IsNumber(whole) && IsNumber(fraction) && request == whole + "." + fraction + Suffix(unit)
    requires Declares(c, limit, request) && Readable(limit)
    requires AllDigits(whole + fraction) && CoversFraction(Amount(limit), whole, fraction, unit)
    ensures MemoryLimitLtRequest(c).Some? <==> Amount(limit) < U64_MAX
  {
    FractionalRequestIsDenounced(c, limit, request, whole, fraction, unit);
  }

  /** For example a limit of 2Gi over a request of 1.5Gi. */
  lemma TwoOverOneAndAHalf(c: Container)
    requires Declares(c, "2Gi", "1.5Gi")
    ensures Readable("2Gi") && CoversFraction(Amount("2Gi"), "1", "5", Gi) && MemoryLimitLtRequest(c).Some?
  {
    TwoGi();
    TwoCoversOneAndAHalf();
    assert "1" + "." + "5" + Suffix(Gi) == "1.5Gi";
    FractionalRequestIsDenounced(c, "2Gi", "1.5Gi", "1", "5", Gi);
  }

  lemma TwoCoversOneAndAHalf()
    ensures CoversFraction(2_147_483_648, "1", "5", Gi)
  {
    assert "15"[..1] == "1" && "1"[..0] == "";
    assert "1" + "5" == "15" && Value("1") == 1 && Value("15") == 15;
    assert Pow10(0) == 1 && Pow10(1) == 10;
  }

  lemma TwoGi()
    ensures Readable("2Gi") && Amount("2Gi") == 2_147_483_648
  {
    assert "" + ("" + "2" + "" + Suffix(Gi) + "") == "2Gi";
    WrittenQuantity("2Gi", "", "", "2", "", Gi, "");
    assert "2"[..0] == "";
    assert Value("2") == 2;
  }

  // ------------------------------------------------------------ the checks

  datatype Policies = Policies(memoryLimitLtRequest: bool, deploymentMissingReadinessProbe: bool,
                               ingressMissingClassName: bool, protectedNamespaces: bool)

  datatype Warning =
    | LimitBelowRequest(container: string, limit: string, request: string)
    | NoReadinessProbe(container: string)
    | NoIngressClass

  function ContainerWarnings(c: Container, p: Policies): seq<Warning> {
    (if p.memoryLimitLtRequest && MemoryLimitLtRequest(c).Some?
     then [LimitBelowRequest(c.name, MemoryLimitLtRequest(c).value.0, MemoryLimitLtRequest(c).value.1)] else [])
    + (if p.deploymentMissingReadinessProbe && !c.hasReadinessProbe then [NoReadinessProbe(c.name)] else [])
  }

  function DeploymentWarnings(containers: seq<Container>, p: Policies): seq<Warning> {
    if containers == [] then []
    else ContainerWarnings(containers[0], p) + DeploymentWarnings(containers[1..], p)
  }

  lemma {:induction false} DeploymentWarningsSnoc(containers: seq<Container>, c: Container, p: Policies)
    ensures DeploymentWarnings(containers + [c], p) == DeploymentWarnings(containers, p) + ContainerWarnings(c, p)
  {
    if containers == [] {
      assert [c][1..] == [];
    } else {
      assert (containers + [c])[1..] == containers[1..] + [c];
      DeploymentWarningsSnoc(containers[1..], c, p);
      AppendAssoc(ContainerWarnings(containers[0], p), DeploymentWarnings(containers[1..], p), ContainerWarnings(c, p));
    }
  }

  /** Pushes what one container gives rise to: the memory warning first, then the missing probe. */
  method CheckContainer(c: Container, p: Policies, pushed: seq<Warning>) returns (warnings: seq<Warning>)
    ensures warnings == pushed + ContainerWarnings(c, p)
  {
    warnings := pushed;
    if p.memoryLimitLtRequest {
      var found := MemoryLimitLtRequest(c);
      if found.Some? {
        warnings := warnings + [LimitBelowRequest(c.name, found.value.0, found.value.1)];
      }
    }
    if p.deploymentMissingReadinessProbe && !c.hasReadinessProbe {
      warnings := warnings + [NoReadinessProbe(c.name)];
    }
  }

  /** What the first i containers give rise to. */
  ghost function WarningsUpTo(containers: seq<Container>, p: Policies, i: nat): seq<Warning>
    requires i <= |containers|
  {
    DeploymentWarnings(containers[..i], p)
  }

  lemma WarningsUpToStep(containers: seq<Container>, p: Policies, i: nat, pushed: seq<Warning>)
    requires i < |containers|
    ensures pushed + WarningsUpTo(containers, p, i) + ContainerWarnings(containers[i], p)
         == pushed + WarningsUpTo(containers, p, i + 1)
  {
    assert containers[..i + 1] == containers[..i] + [containers[i]];
    DeploymentWarningsSnoc(containers[..i], containers[i], p);
    AppendAssoc(pushed, WarningsUpTo(containers, p, i), ContainerWarnings(containers[i], p));
  }

  /** Pushes onto the warnings what one Deployment gives rise to; `spec` is absent if a spec is missing on the way. */
  method CheckDeployment(spec: Option<seq<Container>>, p: Policies, pushed: seq<Warning>)
    returns (warnings: seq<Warning>)
    ensures warnings == pushed + if spec.Some? then DeploymentWarnings(spec.value, p) else []
  {
    if spec.None? {
      return pushed;
    }
    warnings := pushed;
    var containers := spec.value;
    for i := 0 to |containers|
      invariant warnings == pushed + WarningsUpTo(containers, p, i)
    {
      WarningsUpToStep(containers, p, i, pushed);
      warnings := CheckContainer(containers[i], p, warnings);
    }
    assert containers[..|containers|] == containers;
  }

  function MemoryWarnings(ws: seq<Warning>): seq<Warning> {
    if ws == [] then []
    else (if ws[0].LimitBelowRequest? then [ws[0]] else []) + MemoryWarnings(ws[1..])
  }

  /** The containers whose limit reads as below their request, in order. */
  function Offenders(containers: seq<Container>): (r: seq<Container>)
    ensures forall k :: 0 <= k < |r| ==> MemoryLimitLtRequest(r[k]).Some?
  {
    if containers == [] then []
    else (if MemoryLimitLtRequest(containers[0]).Some? then [containers[0]] else []) + Offenders(containers[1..])
  }

  function Denounce(c: Container): Warning
    requires MemoryLimitLtRequest(c).Some?
  {
    LimitBelowRequest(c.name, MemoryLimitLtRequest(c).value.0, MemoryLimitLtRequest(c).value.1)
  }

  lemma {:induction false} MemoryWarningsConcat(a: seq<Warning>, b: seq<Warning>)
    ensures MemoryWarnings(a + b) == MemoryWarnings(a) + MemoryWarnings(b)
  {
    if a == [] {
      assert a + b == b;
    } else {
      assert (a + b)[1..] == a[1..] + b;
      MemoryWarningsConcat(a[1..], b);
      AppendAssoc(if a[0].LimitBelowRequest? then [a[0]] else [], MemoryWarnings(a[1..]), MemoryWarnings(b));
    }
  }

  /** The memory warnings denounce exactly the offending containers, one each, in order; none when the policy is off. */
  lemma {:induction false} OffendersAreDenounced(containers: seq<Container>, p: Policies)
    ensures var offenders := if p.memoryLimitLtRequest then Offenders(containers) else [];
            var denounced := MemoryWarnings(DeploymentWarnings(containers, p));
            |denounced| == |offenders| && forall k :: 0 <= k < |offenders| ==> denounced[k] == Denounce(offenders[k])
  {
    if containers == [] {
    } else {
      OffendersAreDenounced(containers[1..], p);
      MemoryWarningsConcat(ContainerWarnings(containers[0], p), DeploymentWarnings(containers[1..], p));
      OneContainer(containers[0], p);
    }
  }

  lemma OneContainer(c: Container, p: Policies)
    ensures MemoryWarnings(ContainerWarnings(c, p))
         == if p.memoryLimitLtRequest && MemoryLimitLtRequest(c).Some? then [Denounce(c)] else []
  {
    var second := if p.deploymentMissingReadinessProbe && !c.hasReadinessProbe then [NoReadinessProbe(c.name)] else [];
    assert MemoryWarnings(second) == [];
    if p.memoryLimitLtRequest && MemoryLimitLtRequest(c).Some? {
      assert ContainerWarnings(c, p)[1..] == second;
    } else {
      assert ContainerWarnings(c, p) == second;
    }
  }

  // ------------------------------------------------------------ the verdict

  /** The submitted object as far as the kind named in the request makes it readable. */
  datatype Object = Deployment(spec: Option<seq<Container>>) | Ingress(hasClassName: bool) | Other

  datatype Request = Request(uid: string, namespace: Option<string>, username: string, submitted: Option<Object>)
  datatype Response = Response(uid: string, allowed: bool, code: Option<nat>, warnings: seq<Warning>)

  predicate IsProtected(ns: string) {
    ns == "kube-system" || ns == "kube-public" || ns == "kube-node-lease"
  }

  predicate IsDeckwatchActor(username: string) {
    || ("system:serviceaccount:" <= username && Find(username, "deckwatch").Some?)
    || username == "deckwatch"
  }

  /** Someone else reaches into a protected namespace while the policy is on. */
  predicate Denied(req: Request, p: Policies) {
    && p.protectedNamespaces && req.namespace.Some? && IsProtected(req.namespace.value)
    && !IsDeckwatchActor(req.username)
  }

  method CheckIngress(hasClassName: bool, p: Policies, pushed: seq<Warning>) returns (warnings: seq<Warning>)
    ensures warnings == pushed + if p.ingressMissingClassName && !hasClassName then [NoIngressClass] else []
  {
    warnings := pushed;
    if p.ingressMissingClassName {
      if !hasClassName {
        warnings := warnings + [NoIngressClass];
      }
    }
  }

  /** Only the protected namespaces decide; the advisory checks never deny, and are not made on a denied request. */
  method Evaluate(req: Request, p: Policies) returns (resp: Response)
    ensures resp.uid == req.uid
    ensures resp.allowed <==> !Denied(req, p)
    ensures resp.code == if resp.allowed then None else Some(403)
    ensures Denied(req, p) || req.submitted.None? || req.submitted.value.Other? ==> resp.warnings == []
    ensures !Denied(req, p) && req.submitted.Some? && req.submitted.value.Deployment? ==>
      resp.warnings
      == if req.submitted.value.spec.Some? then DeploymentWarnings(req.submitted.value.spec.value, p) else []
    ensures !Denied(req, p) && req.submitted.Some? && req.submitted.value.Ingress? ==>
      resp.warnings == if p.ingressMissingClassName && !req.submitted.value.hasClassName then [NoIngressClass] else []
  {
    var warnings: seq<Warning> := [];
    var denied := false;
    if p.protectedNamespaces {
      if req.namespace.Some? {
        if IsProtected(req.namespace.value) && !IsDeckwatchActor(req.username) {
          denied := true;
        }
      }
    }
    if !denied && req.submitted.Some? {
      match req.submitted.value {
        case Deployment(spec) => warnings := CheckDeployment(spec, p, warnings);
        case Ingress(hasClassName) => warnings := CheckIngress(hasClassName, p, warnings);
        case Other =>
      }
    }
    resp := Response(req.uid, !denied, if denied then Some(403) else None, warnings);
  }

  // ------------------------------------------------------------ the checks in their own terms

  /** The suffixes of Kubernetes quantities that are understood, and what they stand for. */
  ghost predicate StandsFor(suffix: string, factor: nat) {
    || (suffix == "" && factor == 1)
    || (suffix == "K" && factor == 1000) || (suffix == "Ki" && factor == 1024)
    || (suffix == "M" && factor == 1000 * 1000) || (suffix == "Mi" && factor == 1024 * 1024)
    || (suffix == "G" && factor == 1000 * 1000 * 1000) || (suffix == "Gi" && factor == 1024 * 1024 * 1024)
    || (suffix == "T" && factor == 1000 * 1000 * 1000 * 1000)
    || (suffix == "Ti" && factor == 1024 * 1024 * 1024 * 1024)
  }

  lemma UnitOfSuffix(suffix: string, factor: nat) returns (unit: Unit)
    requires StandsFor(suffix, factor)
    ensures Suffix(unit) == suffix && Multiplier(unit) == factor && (unit == Bare <==> suffix == "")
  {
    unit :=
      if suffix == "" then Bare
      else if suffix == "K" then K else if suffix == "Ki" then Ki
      else if suffix == "M" then M else if suffix == "Mi" then Mi
      else if suffix == "G" then G else if suffix == "Gi" then Gi
      else if suffix == "T" then T else Ti;
  }

  /** Digits and a suffix, with or without blanks around, are read as their product, cut off at 2^64 - 1. */
  lemma SuffixesAreRead(digits: string, suffix: string, factor: nat, before: string, after: string)
    requires IsNumber(digits) && StandsFor(suffix, factor)
    requires forall c :: c in before + after ==> c in " \t\r\n"
    ensures Bytes(before + (digits + suffix + after))
         == if Value(digits) * factor <= 18_446_744_073_709_551_615 then Value(digits) * factor
            else 18_446_744_073_709_551_615
  {
    var unit := UnitOfSuffix(suffix, factor);
    BlankIfAscii(before, after);
    BlankIfAscii(after, before);
    WithoutSignAndGap(digits, suffix, after);
    WrittenQuantity(before + (digits + suffix + after), before, "", digits, "", unit, after);
  }

  lemma BlankIfAscii(a: string, b: string)
    requires forall c :: c in a + b ==> c in " \t\r\n"
    ensures Blank(a) && Blank(b)
  {
    assert forall k :: 0 <= k < |a| ==> a[k] in a + b;
    assert forall k :: 0 <= k < |b| ==> b[k] in a + b;
  }

  lemma WithoutSignAndGap(digits: string, suffix: string, after: string)
    ensures digits + suffix + after == "" + digits + "" + suffix + after
  {
    assert "" + digits + "" == digits;
  }

  /** The memory entry of a resource list. */
  ghost predicate HasMemory(amounts: Option<map<string, string>>, amount: string) {
    amounts.Some? && "memory" in amounts.value && amounts.value["memory"] == amount
  }

  /** A container is denounced only over the memory limit and the memory request it declares. */
  lemma DenouncedOverMemory(c: Container, limit: string, request: string)
    ensures MemoryLimitLtRequest(c) == Some((limit, request))
       <==> && c.resources.Some? && HasMemory(c.resources.value.limits, limit)
            && HasMemory(c.resources.value.requests, request) && Bytes(limit) < Bytes(request)
  {
  }

  /** The warnings of a Deployment, one by one: each policy by itself, for the containers that break it. */
  lemma {:induction false} WarnedIff(containers: seq<Container>, p: Policies, w: Warning)
    ensures w in DeploymentWarnings(containers, p) <==> exists c :: c in containers && Breaks(c, p, w)
  {
    if containers == [] {
    } else {
      var first, rest := containers[0], containers[1..];
      WarnedIff(rest, p, w);
      assert forall c :: c in containers <==> c == first || c in rest;
      assert w in ContainerWarnings(first, p) <==> Breaks(first, p, w);
    }
  }

  ghost predicate Breaks(c: Container, p: Policies, w: Warning) {
    match w
    case LimitBelowRequest(name, limit, request) =>
      p.memoryLimitLtRequest && name == c.name && MemoryLimitLtRequest(c) == Some((limit, request))
    case NoReadinessProbe(name) => p.deploymentMissingReadinessProbe && name == c.name && !c.hasReadinessProbe
    case NoIngressClass => false
  }

  /**
    Who is turned away: while the policy is on, everyone but deckwatch itself, from the three
    protected namespaces.
   */
  lemma DeniedIff(req: Request, p: Policies)
    ensures Denied(req, p) <==>
      && p.protectedNamespaces
      && req.namespace.Some? && req.namespace.value in {"kube-system", "kube-public", "kube-node-lease"}
      && req.username != "deckwatch"
      && !("system:serviceaccount:" <= req.username && Has(req.username, "deckwatch"))
  {
  }

  /** The number in front of the suffix: digits, behind a plus sign or not, that fit 64 bits. Nothing else is one. */
  lemma ParsedIff(s: string, n: nat)
    ensures ParseU64(s) == Some(n)
       <==> && n <= 18_446_744_073_709_551_615
            && exists digits :: IsNumber(digits) && Value(digits) == n && (s == digits || s == "+" + digits)
  {
    ParseU64Means(s);
    assert Unsigned(s) == s || s == "+" + Unsigned(s);
    if digits :| IsNumber(digits) && Value(digits) == n && (s == digits || s == "+" + digits) {
      assert IsDigit(digits[0]);
      assert Unsigned(s) == digits;
    }
  }
}
