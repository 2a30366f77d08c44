/** Condition-route expressions: writing a service argument as text and reading it back. */
module ConditionExpression {
  import opened Text
  import opened Wrappers

  datatype RouteCondition = RouteCondition(index: string, relation: string, value: string)
  datatype DestinationCondition = DestinationCondition(relation: string, tag: string, value: string)
  datatype Destination = Destination(conditions: seq<DestinationCondition>, weight: int)
  datatype ServiceArgument =
    ServiceArgument(conditions: seq<RouteCondition>, destinations: seq<Destination>, method_: string)

  const EQUAL := "="
  const NOT_EQUAL := "!="
  const ARROW := "=>"
  const AND := "&"
  const ARGUMENTS := "arguments["
  const METHOD := "method="

  // ---------------------------------------------------------------------- writing

  /** Everything but "=" is written as "!=". */
  function Operator(relation: string): string
  {
    if relation == EQUAL then EQUAL else NOT_EQUAL
  }

  function RouteText(c: RouteCondition): string
  {
    ARGUMENTS + c.index + "]" + Operator(c.relation) + c.value
  }

  function DestinationText(c: DestinationCondition): string
  {
    c.tag + Operator(c.relation) + c.value
  }

  function RoutesText(cs: seq<RouteCondition>): string
  {
    if cs == [] then "" else " & " + RouteText(cs[0]) + RoutesText(cs[1..])
  }

  function ConditionsText(cs: seq<DestinationCondition>, first: bool): string
  {
    if cs == [] then ""
    else (if first then "" else " & ") + DestinationText(cs[0]) + ConditionsText(cs[1..], false)
  }

  function DestinationsText(ds: seq<Destination>, first: bool): string
  {
    if ds == [] then ""
    else ConditionsText(ds[0].conditions, first) + (if |ds| > 1 then ", " else "") + DestinationsText(ds[1..], false)
  }

  function Tail(ds: seq<Destination>): string
  {
    if ds == [] then "" else " => " + DestinationsText(ds, true)
  }

  function Expression(sa: ServiceArgument): string
  {
    METHOD + sa.method_ + RoutesText(sa.conditions) + Tail(sa.destinations)
  }

  lemma ConditionsTextStep(e: string, cs: seq<DestinationCondition>, k: nat, first: bool)
    requires k < |cs|
    ensures var next := if first then e else e + " & ";
            e + ConditionsText(cs[k..], first) == next + DestinationText(cs[k]) + ConditionsText(cs[k + 1..], false)
  {
    var sep := if first then "" else " & ";
    assert cs[k..][1..] == cs[k + 1..];
    assert e + (sep + DestinationText(cs[k]) + ConditionsText(cs[k + 1..], false))
        == e + sep + DestinationText(cs[k]) + ConditionsText(cs[k + 1..], false);
    assert e + "" == e;
  }

  method AppendConditions(expression: string, cs: seq<DestinationCondition>, destIdx: nat) returns (e: string)
    ensures e == expression + ConditionsText(cs, destIdx == 0)
  {
    e := expression;
    assert cs[0..] == cs;
    for condIdx := 0 to |cs|
      invariant e + ConditionsText(cs[condIdx..], destIdx == 0 && condIdx == 0)
             == expression + ConditionsText(cs, destIdx == 0)
    {
      ConditionsTextStep(e, cs, condIdx, destIdx == 0 && condIdx == 0);
      if destIdx > 0 || condIdx > 0 {
        e := e + " & ";
      }
      e := e + DestinationText(cs[condIdx]);
    }
    assert e + "" == e;
  }

  lemma DestinationsTextStep(e: string, ds: seq<Destination>, k: nat, first: bool)
    requires k < |ds|
    ensures var next := e + ConditionsText(ds[k].conditions, first);
            e + DestinationsText(ds[k..], first)
            == (if k < |ds| - 1 then next + ", " else next) + DestinationsText(ds[k + 1..], false)
  {
    var t, rest := ConditionsText(ds[k].conditions, first), DestinationsText(ds[k + 1..], false);
    assert ds[k..][1..] == ds[k + 1..];
    if k < |ds| - 1 {
      Associative(e, t + ", ", rest);
      Associative(e, t, ", ");
    } else {
      assert t + "" == t;
      Associative(e, t, rest);
    }
  }

  method AppendDestinations(expression: string, ds: seq<Destination>) returns (e: string)
    ensures e == expression + DestinationsText(ds, true)
  {
    e := expression;
    assert ds[0..] == ds;
    for destIdx := 0 to |ds|
      invariant e + DestinationsText(ds[destIdx..], destIdx == 0) == expression + DestinationsText(ds, true)
    {
      DestinationsTextStep(e, ds, destIdx, destIdx == 0);
      e := AppendConditions(e, ds[destIdx].conditions, destIdx);
      if destIdx < |ds| - 1 {
        e := e + ", ";
      }
    }
    assert e + "" == e;
  }

  method ToExpression(sa: ServiceArgument) returns (e: string)
    ensures e == Expression(sa)
  {
    e := METHOD + sa.method_;
    var cs := sa.conditions;
    assert cs[0..] == cs;
    for k := 0 to |cs|
      invariant e + RoutesText(cs[k..]) == METHOD + sa.method_ + RoutesText(cs)
    {
      ghost var before := e;
      assert cs[k..][1..] == cs[k + 1..];
      e := e + (" & " + RouteText(cs[k]));
      assert before + RoutesText(cs[k..]) == e + RoutesText(cs[k + 1..]);
    }
    assert e + "" == e;
    if |sa.destinations| > 0 {
      ghost var from := e;
      e := AppendDestinations(e + " => ", sa.destinations);
      assert e == from + (" => " + DestinationsText(sa.destinations, true));
    } else {
      assert e + "" == e;
    }
  }

  // ---------------------------------------------------------------------- reading

  /** What a condition's text says: left side, relation, right side. */
  datatype Halves = Halves(left: string, relation: string, right: string)

  function SplitAt(condition: string, relation: string): Halves
    requires Contains(condition, relation)
  {
    var i := Index(condition, relation);
    Halves(Trim(condition[..i]), relation, Trim(condition[i + |relation|..]))
  }

  function HalvesOf(condition: string): Option<Halves>
  {
    if Contains(condition, NOT_EQUAL) then Some(SplitAt(condition, NOT_EQUAL))
    else if Contains(condition, EQUAL) then Some(SplitAt(condition, EQUAL))
    else None
  }

  /** The index between the brackets, or the whole left side when it has no such form. */
  function IndexOf(left: string): string
  {
    if ARGUMENTS <= left && left[|left| - 1] == ']' then left[10..|left| - 1] else left
  }

  function ParseRouteCondition(condition: string): RouteCondition
  {
    match HalvesOf(condition)
    case None => RouteCondition("", "", "")
    case Some(h) => RouteCondition(IndexOf(h.left), h.relation, h.right)
  }

  function ParseDestinationCondition(condition: string): DestinationCondition
  {
    match HalvesOf(condition)
    case None => DestinationCondition("", "", "")
    case Some(h) => DestinationCondition(h.relation, h.left, h.right)
  }

  function RouteIn(piece: string): seq<RouteCondition>
  {
    var c := ParseRouteCondition(piece);
    if c.index != "" then [c] else []
  }

  function ConditionIn(piece: string): seq<DestinationCondition>
  {
    var c := ParseDestinationCondition(piece);
    if c.tag != "" then [c] else []
  }

  /** What one piece says: the method, or a condition, or nothing. */
  datatype Reading = Method(name: string) | Conditions(found: seq<RouteCondition>)

  function ReadPiece(piece: string): Reading
  {
    var p := Trim(piece);
    if METHOD <= p then Method(Trim(p[7..])) else Conditions(RouteIn(p))
  }

  /** All conditions in order, and the last method, or the one known before. */
  function Combine(rs: seq<Reading>, m: string): (string, seq<RouteCondition>)
    decreases |rs|
  {
    if rs == [] then (m, [])
    else
      var before, last := Combine(rs[..|rs| - 1], m), rs[|rs| - 1];
      if last.Method? then (last.name, before.1) else (before.0, before.1 + last.found)
  }

  function Map<A, B>(f: A -> B, xs: seq<A>): seq<B>
  {
    seq(|xs|, i requires 0 <= i < |xs| => f(xs[i]))
  }

  lemma MapFront<A, B>(f: A -> B, x: A, xs: seq<A>)
    ensures Map(f, [x] + xs) == [f(x)] + Map(f, xs)
  {
  }

  lemma MapBack<A, B>(f: A -> B, xs: seq<A>, k: nat)
    requires k < |xs|
    ensures Map(f, xs[..k + 1]) == Map(f, xs[..k]) + [f(xs[k])]
  {
  }

  lemma MapSame<A, B>(f: A -> B, xs: seq<A>, ys: seq<A>)
    requires |xs| == |ys| && forall i :: 0 <= i < |xs| ==> f(xs[i]) == f(ys[i])
    ensures Map(f, xs) == Map(f, ys)
  {
  }

  function Readings(pieces: seq<string>): seq<Reading>
  {
    Map(ReadPiece, pieces)
  }

  function From(pieces: seq<string>, m: string): (string, seq<RouteCondition>)
  {
    Combine(Readings(pieces), m)
  }

  function Flatten<T>(xs: seq<seq<T>>): seq<T>
  {
    if xs == [] then [] else Flatten(xs[..|xs| - 1]) + xs[|xs| - 1]
  }

  function ReadCondition(piece: string): seq<DestinationCondition>
  {
    ConditionIn(Trim(piece))
  }

  function ConditionsIn(pieces: seq<string>): seq<seq<DestinationCondition>>
  {
    Map(ReadCondition, pieces)
  }

  function To(pieces: seq<string>): seq<DestinationCondition>
  {
    Flatten(ConditionsIn(pieces))
  }

  function DestinationsOf(toPart: string): seq<Destination>
  {
    if toPart == "" then [] else [Destination(To(Split(toPart, AND)), 0)]
  }

  function Parse(expression: string): ServiceArgument
  {
    var parts := Split(expression, ARROW);
    var from := From(Split(Trim(parts[0]), AND), "");
    ServiceArgument(from.1, DestinationsOf(if |parts| > 1 then Trim(parts[1]) else ""), from.0)
  }

  method ParseFromPart(fromPart: string) returns (m: string, conditions: seq<RouteCondition>)
    ensures (m, conditions) == From(Split(fromPart, AND), "")
  {
    m, conditions := "", [];
    var pieces := Split(fromPart, AND);
    for k := 0 to |pieces|
      invariant (m, conditions) == From(pieces[..k], "")
    {
      MapBack(ReadPiece, pieces, k);
      assert Readings(pieces[..k + 1])[..k] == Readings(pieces[..k]);
      var condition := Trim(pieces[k]);
      if METHOD <= condition {
        m := Trim(condition[7..]);
      } else {
        var c := ParseRouteCondition(condition);
        assert conditions + [] == conditions;
        if c.index != "" {
          conditions := conditions + [c];
        }
      }
    }
    assert pieces[..|pieces|] == pieces;
  }

  method ParseToPart(toPart: string) returns (ds: seq<Destination>)
    ensures ds == DestinationsOf(toPart)
  {
    if toPart == "" {
      return [];
    }
    var pieces := Split(toPart, AND);
    var conditions := [];
    for k := 0 to |pieces|
      invariant conditions == To(pieces[..k])
    {
      MapBack(ReadCondition, pieces, k);
      assert ConditionsIn(pieces[..k + 1])[..k] == ConditionsIn(pieces[..k]);
      var c := ParseDestinationCondition(Trim(pieces[k]));
      if c.tag != "" {
        conditions := conditions + [c];
      }
    }
    assert pieces[..|pieces|] == pieces;
    return [Destination(conditions, 0)];
  }

  method ParseConditionExpression(expression: string) returns (sa: ServiceArgument)
    ensures sa == Parse(expression)
  {
    var parts := Split(expression, ARROW);
    var m, conditions := ParseFromPart(Trim(parts[0]));
    var destinations := ParseToPart(if |parts| > 1 then Trim(parts[1]) else "");
    return ServiceArgument(conditions, destinations, m);
  }

  // ------------------------------------------------------------ pieces and padding

  lemma Associative<T>(a: seq<T>, b: seq<T>, c: seq<T>)
    ensures a + (b + c) == a + b + c
  {
  }

  lemma {:induction false} CombineFront(r: Reading, rs: seq<Reading>, m: string)
    ensures Combine([r] + rs, m) == if r.Method? then Combine(rs, r.name)
                                    else (Combine(rs, m).0, r.found + Combine(rs, m).1)
    decreases |rs|
  {
    var all := [r] + rs;
    if rs == [] {
      assert all[..|all| - 1] == [];
      assert Combine([], m) == (m, []);
      assert r.Conditions? ==> r.found + [] == [] + r.found;
    } else {
      var n := |rs| - 1;
      CombineFront(r, rs[..n], m);
      assert all[..|all| - 1] == [r] + rs[..n];
      if r.Conditions? && rs[n].Conditions? {
        Associative(r.found, Combine(rs[..n], m).1, rs[n].found);
      }
    }
  }

  lemma FromFront(p: string, ps: seq<string>, m: string)
    ensures var r := ReadPiece(p);
            From([p] + ps, m) == if r.Method? then From(ps, r.name) else (From(ps, m).0, r.found + From(ps, m).1)
  {
    MapFront(ReadPiece, p, ps);
    CombineFront(ReadPiece(p), Readings(ps), m);
  }

  lemma {:induction false} FlattenFront<T>(x: seq<T>, xs: seq<seq<T>>)
    ensures Flatten([x] + xs) == x + Flatten(xs)
    decreases |xs|
  {
    var all := [x] + xs;
    if xs == [] {
      assert all[..|all| - 1] == [];
    } else {
      var n := |xs| - 1;
      FlattenFront(x, xs[..n]);
      assert all[..|all| - 1] == [x] + xs[..n];
      Associative(x, Flatten(xs[..n]), xs[n]);
    }
  }

  lemma ToFront(p: string, ps: seq<string>)
    ensures To([p] + ps) == ReadCondition(p) + To(ps)
  {
    MapFront(ReadCondition, p, ps);
    FlattenFront(ReadCondition(p), ConditionsIn(ps));
  }

  /** The same pieces up to the white space around them. */
  predicate Alike(ps: seq<string>, qs: seq<string>)
  {
    |ps| == |qs| && forall i :: 0 <= i < |ps| ==> Trim(ps[i]) == Trim(qs[i])
  }

  lemma AlikeReadAlike(ps: seq<string>, qs: seq<string>, m: string)
    requires Alike(ps, qs)
    ensures From(ps, m) == From(qs, m) && To(ps) == To(qs)
  {
    forall i | 0 <= i < |ps|
      ensures ReadPiece(ps[i]) == ReadPiece(qs[i]) && ReadCondition(ps[i]) == ReadCondition(qs[i])
    {
    }
    MapSame(ReadPiece, ps, qs);
    MapSame(ReadCondition, ps, qs);
  }

  lemma BlankHasNoAnd(pad: string)
    requires Blank(pad)
    ensures !Contains(pad, AND)
  {
    NoFirstChar(pad, AND);
  }

  lemma AlikeHeads(p: string, q: string, ps: seq<string>)
    requires Trim(p) == Trim(q)
    ensures Alike([p] + ps, [q] + ps)
  {
  }

  lemma AroundFirstAnd(s: string)
    requires Contains(s, AND)
    ensures var i := Index(s, AND); s == s[..i] + AND + s[i + 1..]
  {
    var i := Index(s, AND);
    assert s[i + 0] == AND[0];
  }

  lemma PadLeft(pad: string, s: string)
    requires Blank(pad)
    ensures Alike(Split(pad + s, AND), Split(s, AND))
  {
    BlankHasNoAnd(pad);
    var i := Index(s, AND);
    if i == -1 {
      OneCharJoint(pad, s, AND);
      JoinWithout(pad, s, AND);
      TrimPadLeft(pad, s);
    } else {
      BeforeFirst(s, AND);
      PadFirstPiece(pad, s[..i], s[i + 1..]);
      AroundFirstAnd(s);
    }
  }

  lemma PadFirstPiece(pad: string, first: string, rest: string)
    requires Blank(pad) && !Contains(first, AND)
    ensures Alike(Split(pad + (first + AND + rest), AND), [first] + Split(rest, AND))
  {
    BlankHasNoAnd(pad);
    OneCharJoint(pad, first, AND);
    JoinWithout(pad, first, AND);
    OneCharJoint(pad + first, AND + rest, AND);
    SplitFirst(pad + first, AND, rest);
    assert pad + (first + AND + rest) == pad + first + AND + rest;
    TrimPadLeft(pad, first);
    AlikeHeads(pad + first, first, Split(rest, AND));
  }

  lemma AlikeTails(p: string, ps: seq<string>, qs: seq<string>)
    requires Alike(ps, qs)
    ensures Alike([p] + ps, [p] + qs)
  {
  }

  lemma {:induction false} PadRight(s: string, pad: string)
    requires Blank(pad)
    ensures Alike(Split(s + pad, AND), Split(s, AND))
    decreases |s|
  {
    var i := Index(s, AND);
    if i == -1 {
      BlankHasNoAnd(pad);
      OneCharJoint(s, pad, AND);
      JoinWithout(s, pad, AND);
      TrimPadRight(s, pad);
    } else {
      var first, rest := s[..i], s[i + 1..];
      IndexKeeps(s, pad, AND);
      PadRight(rest, pad);
      assert (s + pad)[..i] == first && (s + pad)[i + 1..] == rest + pad;
      AlikeTails(first, Split(rest + pad, AND), Split(rest, AND));
    }
  }

  // ----------------------------------------------- what the parser can produce at all

  /** Free of both separators. */
  predicate Free(s: string)
  {
    !Contains(s, AND) && !Contains(s, ARROW)
  }

  lemma WithinFree(part: string, s: string)
    requires Within(part, s) && Free(s)
    ensures Free(part)
  {
    WithinContains(part, s, AND);
    WithinContains(part, s, ARROW);
  }

  /** The first relation sign stands right after the left side. */
  predicate Separated(left: string, relation: string, right: string)
  {
    && (relation == EQUAL || relation == NOT_EQUAL)
    && !Contains(left, relation)
    && (relation == EQUAL ==> !Contains(left, NOT_EQUAL) && !Contains(right, NOT_EQUAL))
  }

  lemma TrimmedSlice(s: string, i: int, j: int)
    requires 0 <= i <= j <= |s|
    ensures Within(Trim(s[i..j]), s) && Trimmed(Trim(s[i..j])) && |Trim(s[i..j])| <= j - i
    ensures Within(Trim(s[i..j]), s[i..j])
  {
    TrimIs(s[i..j]);
    WithinSlice(s, i, j);
    WithinTransitive(Trim(s[i..j]), s[i..j], s);
  }

  lemma SplitAtLeft(condition: string, relation: string)
    requires Contains(condition, relation) && relation != []
    ensures var left := SplitAt(condition, relation).left;
            && Within(left, condition) && Trimmed(left) && !Contains(left, relation)
            && |left| <= Index(condition, relation)
  {
    var i := Index(condition, relation);
    BeforeFirst(condition, relation);
    TrimmedSlice(condition, 0, i);
    assert condition[..i] == condition[0..i];
    WithinContains(Trim(condition[..i]), condition[..i], relation);
  }

  lemma SplitAtRight(condition: string, relation: string)
    requires Contains(condition, relation)
    ensures var right := SplitAt(condition, relation).right;
            && Within(right, condition) && Trimmed(right)
            && |right| <= |condition| - Index(condition, relation) - |relation|
  {
    var i := Index(condition, relation) + |relation|;
    assert condition[i..] == condition[i..|condition|];
    TrimmedSlice(condition, i, |condition|);
  }

  lemma HalvesShape(condition: string)
    requires HalvesOf(condition).Some?
    ensures var h := HalvesOf(condition).value;
            && Within(h.left, condition) && Within(h.right, condition)
            && Trimmed(h.left) && Trimmed(h.right) && Separated(h.left, h.relation, h.right)
            && |h.left| + |h.relation| + |h.right| <= |condition|
  {
    var h := HalvesOf(condition).value;
    SplitAtLeft(condition, h.relation);
    SplitAtRight(condition, h.relation);
    if !Contains(condition, NOT_EQUAL) {
      WithinContains(h.left, condition, NOT_EQUAL);
      WithinContains(h.right, condition, NOT_EQUAL);
    }
  }

  /** Conditions as some text can give them. */
  predicate Readable(c: RouteCondition)
  {
    && c.index != "" && Free(c.index) && Free(c.value) && Trimmed(c.value)
    && Separated(c.index, c.relation, c.value)
  }

  predicate ReadableDestination(c: DestinationCondition)
  {
    && c.tag != "" && Free(c.tag) && Free(c.value) && Trimmed(c.tag) && Trimmed(c.value)
    && Separated(c.tag, c.relation, c.value)
  }

  lemma IndexOfWithin(left: string)
    ensures Within(IndexOf(left), left) && |IndexOf(left)| <= |left|
  {
    if ARGUMENTS <= left && left[|left| - 1] == ']' {
      WithinSlice(left, 10, |left| - 1);
    } else {
      WithinSlice(left, 0, |left|);
      assert left[0..|left|] == left;
    }
  }

  lemma RouteInReadable(piece: string)
    requires Free(piece) && RouteIn(piece) != []
    ensures Readable(RouteIn(piece)[0])
    ensures var c := RouteIn(piece)[0]; |c.index| + |c.relation| + |c.value| <= |piece|
  {
    var h := HalvesOf(piece).value;
    HalvesShape(piece);
    WithinFree(h.left, piece);
    WithinFree(h.right, piece);
    IndexOfWithin(h.left);
    WithinFree(IndexOf(h.left), h.left);
    WithinContains(IndexOf(h.left), h.left, h.relation);
    if h.relation == EQUAL {
      WithinContains(IndexOf(h.left), h.left, NOT_EQUAL);
    }
  }

  lemma ConditionInReadable(piece: string)
    requires Free(piece) && ConditionIn(piece) != []
    ensures ReadableDestination(ConditionIn(piece)[0])
    ensures var c := ConditionIn(piece)[0]; |c.tag| + |c.relation| + |c.value| <= |piece|
  {
    var h := HalvesOf(piece).value;
    HalvesShape(piece);
    WithinFree(h.left, piece);
    WithinFree(h.right, piece);
  }

  predicate AllFree(ps: seq<string>)
  {
    forall i :: 0 <= i < |ps| ==> Free(ps[i])
  }

  predicate AllReadable(cs: seq<RouteCondition>)
  {
    forall i :: 0 <= i < |cs| ==> Readable(cs[i])
  }

  predicate AllReadableDestinations(cs: seq<DestinationCondition>)
  {
    forall i :: 0 <= i < |cs| ==> ReadableDestination(cs[i])
  }

  predicate ReadableMethod(m: string)
  {
    Free(m) && Trimmed(m)
  }

  lemma TrimFree(p: string)
    requires Free(p)
    ensures Free(Trim(p))
  {
    TrimIs(p);
    WithinFree(Trim(p), p);
  }

  lemma MethodReadable(p: string)
    requires Free(p) && METHOD <= p
    ensures ReadableMethod(Trim(p[7..]))
  {
    assert p[7..] == p[7..|p|];
    TrimmedSlice(p, 7, |p|);
    WithinFree(Trim(p[7..]), p);
  }

  predicate ReadableReading(r: Reading)
  {
    if r.Method? then ReadableMethod(r.name) else AllReadable(r.found)
  }

  lemma PieceReadable(p: string)
    requires Free(p)
    ensures ReadableReading(ReadPiece(p)) && AllReadableDestinations(ConditionIn(Trim(p)))
  {
    var q := Trim(p);
    TrimFree(p);
    if METHOD <= q {
      MethodReadable(q);
    } else if RouteIn(q) != [] {
      RouteInReadable(q);
    }
    if ConditionIn(q) != [] {
      ConditionInReadable(q);
    }
  }

  lemma {:induction false} CombineReadable(rs: seq<Reading>, m: string)
    requires (forall i :: 0 <= i < |rs| ==> ReadableReading(rs[i])) && ReadableMethod(m)
    ensures ReadableMethod(Combine(rs, m).0) && AllReadable(Combine(rs, m).1)
    decreases |rs|
  {
    if rs != [] {
      CombineReadable(rs[..|rs| - 1], m);
      assert ReadableReading(rs[|rs| - 1]);
    }
  }

  lemma FromReadable(ps: seq<string>, m: string)
    requires AllFree(ps) && ReadableMethod(m)
    ensures ReadableMethod(From(ps, m).0) && AllReadable(From(ps, m).1)
  {
    forall i | 0 <= i < |ps| ensures ReadableReading(Readings(ps)[i]) {
      PieceReadable(ps[i]);
    }
    CombineReadable(Readings(ps), m);
  }

  lemma {:induction false} FlattenReadable(xs: seq<seq<DestinationCondition>>)
    requires forall i :: 0 <= i < |xs| ==> AllReadableDestinations(xs[i])
    ensures AllReadableDestinations(Flatten(xs))
  {
    if xs != [] {
      FlattenReadable(xs[..|xs| - 1]);
      assert AllReadableDestinations(xs[|xs| - 1]);
    }
  }

  lemma ToReadable(ps: seq<string>)
    requires AllFree(ps)
    ensures AllReadableDestinations(To(ps))
  {
    forall i | 0 <= i < |ps| ensures AllReadableDestinations(ConditionsIn(ps)[i]) {
      PieceReadable(ps[i]);
      assert ConditionsIn(ps)[i] == ReadCondition(ps[i]);
    }
    FlattenReadable(ConditionsIn(ps));
  }

  lemma PiecesFree(part: string, expression: string)
    requires Within(part, expression) && !Contains(part, ARROW)
    ensures AllFree(Split(Trim(part), AND))
  {
    TrimIs(part);
    WithinContains(Trim(part), part, ARROW);
    var pieces := Split(Trim(part), AND);
    forall i | 0 <= i < |pieces| ensures Free(pieces[i]) {
      SplitParts(Trim(part), AND, i);
      WithinContains(pieces[i], Trim(part), ARROW);
    }
  }

  /** Whatever the text, the parser gives readable conditions and at most one destination. */
  lemma ParseIsReadable(expression: string)
    ensures var sa := Parse(expression);
            && ReadableMethod(sa.method_) && AllReadable(sa.conditions)
            && |sa.destinations| <= 1
            && (sa.destinations != [] ==> sa.destinations[0].weight == 0
                                          && AllReadableDestinations(sa.destinations[0].conditions))
  {
    var parts := Split(expression, ARROW);
    SplitParts(expression, ARROW, 0);
    PiecesFree(parts[0], expression);
    EmptyIsFree();
    FromReadable(Split(Trim(parts[0]), AND), "");
    if |parts| > 1 {
      SplitParts(expression, ARROW, 1);
      PiecesFree(parts[1], expression);
      ToReadable(Split(Trim(parts[1]), AND));
    }
  }

  lemma EmptyIsFree()
    ensures Free("")
  {
    NoFirstChar("", AND);
    NoFirstChar("", ARROW);
  }
}
