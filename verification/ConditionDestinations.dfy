/**
 What becomes of arguments that do not come back as they are: several destinations, and relations
 other than the two that are written.
 */
module ConditionDestinations {
  import opened Text
  import opened Wrappers
  import opened ConditionExpression
  import opened ConditionRoundTrip

  // ------------------------------------------------------------ several destinations

  predicate Good(c: DestinationCondition)
  {
    ReadableDestination(c) && Plain(c)
  }

  ghost predicate AllGood(cs: seq<DestinationCondition>)
  {
    forall i :: 0 <= i < |cs| ==> Good(cs[i])
  }

  ghost predicate AllGroups(ds: seq<Destination>)
  {
    forall i :: 0 <= i < |ds| ==> ds[i].conditions != [] && AllGood(ds[i].conditions)
  }

  function WithComma(c: DestinationCondition): DestinationCondition
  {
    c.(value := c.value + ",")
  }

  /** A destination that another one follows: the comma between them sticks to its last value. */
  function Followed(cs: seq<DestinationCondition>): seq<DestinationCondition>
  {
    if cs == [] then [] else cs[..|cs| - 1] + [WithComma(cs[|cs| - 1])]
  }

  /** The conditions of all destinations, one after the other. */
  function Merged(ds: seq<Destination>): seq<DestinationCondition>
  {
    if ds == [] then []
    else if |ds| == 1 then ds[0].conditions
    else Followed(ds[0].conditions) + Merged(ds[1..])
  }

  lemma CommaIsGood(c: DestinationCondition)
    requires Good(c)
    ensures Good(WithComma(c)) && DestinationText(WithComma(c)) == DestinationText(c) + ","
  {
    var v := c.value;
    NoFirstChar(",", AND);
    NoFirstChar(",", ARROW);
    NoFirstChar(",", NOT_EQUAL);
    OneCharJoint(v, ",", AND);
    JoinWithout(v, ",", AND);
    TwoCharJoint(v, ",", ARROW);
    JoinWithout(v, ",", ARROW);
    TwoCharJoint(v, ",", NOT_EQUAL);
    if c.relation == EQUAL {
      JoinWithout(v, ",", NOT_EQUAL);
    }
    Associative(c.tag + Operator(c.relation), v, ",");
  }

  lemma PaddedBeforeAnd(p: string, pad: string, x: string)
    requires !Contains(p, AND) && Trimmed(p) && Blank(pad)
    ensures To(Split(p + pad + (" & " + x), AND)) == ConditionIn(p) + To(Split(x, AND))
  {
    BlankHasNoAnd(pad);
    OneCharJoint(p, pad, AND);
    JoinWithout(p, pad, AND);
    assert p + pad + (" & " + x) == p + pad + " &" + (" " + x);
    SpacedSplit(p + pad, " " + x);
    ToFront(p + pad + " ", Split(" " + x, AND));
    Associative(p, pad, " ");
    TrimPadRight(p, pad + " ");
    TrimIs(p);
    PadLeft(" ", x);
    AlikeReadAlike(Split(" " + x, AND), Split(x, AND), "");
  }

  lemma {:induction false} GoodReads(c: DestinationCondition)
    requires Good(c)
    ensures Free(DestinationText(c)) && Trimmed(DestinationText(c)) && ConditionIn(DestinationText(c)) == [c]
  {
    DestinationTextShape(c);
    DestinationReads(c);
  }

  lemma {:induction false} GroupText(cs: seq<DestinationCondition>)
    requires cs != []
    ensures ConditionsText(cs, true)
         == if |cs| == 1 then DestinationText(cs[0])
            else DestinationText(cs[0]) + (" & " + ConditionsText(cs[1..], true))
  {
    assert cs == [cs[0]] + cs[1..];
    ConditionsTextFront(cs[0], cs[1..]);
    if |cs| == 1 {
      assert DestinationText(cs[0]) + "" == DestinationText(cs[0]);
    }
  }

  lemma {:induction false} FollowedFront(cs: seq<DestinationCondition>)
    requires |cs| > 1
    ensures Followed(cs) == [cs[0]] + Followed(cs[1..])
  {
    assert cs[..|cs| - 1] == [cs[0]] + cs[1..][..|cs| - 2];
  }

  lemma {:induction false} LastGroupReads(cs: seq<DestinationCondition>)
    requires cs != [] && AllGood(cs)
    ensures To(Split(ConditionsText(cs, true), AND)) == cs && !Contains(ConditionsText(cs, true), ARROW)
  {
    var d := DestinationText(cs[0]);
    GoodReads(cs[0]);
    GroupText(cs);
    if |cs| == 1 {
      OneCondition(d);
    } else {
      var rest := ConditionsText(cs[1..], true);
      LastGroupReads(cs[1..]);
      ConditionBeforeAnd(d, rest);
      AndHasNoArrow(d, rest);
      assert cs == [cs[0]] + cs[1..];
    }
  }

  lemma AndHasNoArrow(a: string, b: string)
    requires !Contains(a, ARROW) && !Contains(b, ARROW)
    ensures !Contains(a + (" & " + b), ARROW)
  {
    NoFirstChar(" & ", ARROW);
    TwoCharJoint(" & ", b, ARROW);
    JoinWithout(" & ", b, ARROW);
    TwoCharJoint(a, " & " + b, ARROW);
    JoinWithout(a, " & " + b, ARROW);
  }

  lemma CommaText(d: string, x: string)
    ensures d + ", " + (" & " + x) == d + "," + " " + (" & " + x)
  {
  }

  lemma GroupGoesOn(d: string, rest: string, x: string)
    ensures d + (" & " + rest) + ", " + (" & " + x) == d + (" & " + (rest + ", " + (" & " + x)))
  {
  }

  lemma {:induction false} LastBeforeComma(c: DestinationCondition, x: string)
    requires Good(c)
    ensures To(Split(DestinationText(c) + ", " + (" & " + x), AND)) == [WithComma(c)] + To(Split(x, AND))
  {
    CommaIsGood(c);
    GoodReads(WithComma(c));
    CommaText(DestinationText(c), x);
    PaddedBeforeAnd(DestinationText(c) + ",", " ", x);
  }

  lemma {:induction false} OneOfGroup(c: DestinationCondition, rest: string, x: string)
    requires Good(c)
    ensures To(Split(DestinationText(c) + (" & " + rest) + ", " + (" & " + x), AND))
         == [c] + To(Split(rest + ", " + (" & " + x), AND))
  {
    GoodReads(c);
    GroupGoesOn(DestinationText(c), rest, x);
    ConditionBeforeAnd(DestinationText(c), rest + ", " + (" & " + x));
  }

  /** A destination before others reads as its conditions, the last with the comma. */
  lemma {:induction false} GroupReads(cs: seq<DestinationCondition>, x: string)
    requires cs != [] && AllGood(cs)
    ensures To(Split(ConditionsText(cs, true) + ", " + (" & " + x), AND)) == Followed(cs) + To(Split(x, AND))
    decreases |cs|
  {
    GroupText(cs);
    if |cs| == 1 {
      LastBeforeComma(cs[0], x);
      assert Followed(cs) == [WithComma(cs[0])];
    } else {
      GroupReads(cs[1..], x);
      OneOfGroup(cs[0], ConditionsText(cs[1..], true), x);
      FollowedFront(cs);
      Associative([cs[0]], Followed(cs[1..]), To(Split(x, AND)));
    }
  }

  lemma {:induction false} NotFirst(ds: seq<Destination>)
    requires ds != [] && ds[0].conditions != []
    ensures DestinationsText(ds, false) == " & " + DestinationsText(ds, true)
  {
    var cs := ds[0].conditions;
    var more := (if |ds| > 1 then ", " else "") + DestinationsText(ds[1..], false);
    assert cs == [cs[0]] + cs[1..];
    ConditionsTextFront(cs[0], cs[1..]);
    Associative(ConditionsText(cs, false), if |ds| > 1 then ", " else "", DestinationsText(ds[1..], false));
    Associative(ConditionsText(cs, true), if |ds| > 1 then ", " else "", DestinationsText(ds[1..], false));
    Associative(" & ", ConditionsText(cs, true), more);
  }

  lemma {:induction false} DestinationsFront(ds: seq<Destination>)
    requires |ds| > 1 && ds[1].conditions != []
    ensures DestinationsText(ds, true)
         == ConditionsText(ds[0].conditions, true) + ", " + (" & " + DestinationsText(ds[1..], true))
  {
    NotFirst(ds[1..]);
  }

  lemma {:induction false} GroupsRead(ds: seq<Destination>)
    requires ds != [] && AllGroups(ds)
    ensures To(Split(DestinationsText(ds, true), AND)) == Merged(ds) && !Contains(DestinationsText(ds, true), ARROW)
    decreases |ds|
  {
    var cs := ds[0].conditions;
    LastGroupReads(cs);
    if |ds| == 1 {
      assert ds == [ds[0]];
      OneDestinationText(ds[0]);
    } else {
      var x := DestinationsText(ds[1..], true);
      GroupsRead(ds[1..]);
      DestinationsFront(ds);
      GroupReads(cs, x);
      NoFirstChar(", ", ARROW);
      TwoCharJoint(ConditionsText(cs, true), ", ", ARROW);
      JoinWithout(ConditionsText(cs, true), ", ", ARROW);
      AndHasNoArrow(ConditionsText(cs, true) + ", ", x);
    }
  }

  lemma {:induction false} MergedIsSome(ds: seq<Destination>)
    requires ds != [] && AllGroups(ds)
    ensures Merged(ds) != []
  {
  }

  /** Any number of destinations comes back as one: with the conditions of all of them in order, the
      commas in the values, and the weights gone. */
  lemma DestinationsMerge(sa: ServiceArgument)
    requires ReadableMethod(sa.method_) && !Sharp(sa.method_) && AllReadable(sa.conditions) && NoneSharp(sa.conditions)
    requires sa.destinations != [] && AllGroups(sa.destinations)
    ensures Parse(Expression(sa))
         == ServiceArgument(sa.conditions, [Destination(Merged(sa.destinations), 0)], sa.method_)
  {
    var from, x := METHOD + sa.method_ + RoutesText(sa.conditions), DestinationsText(sa.destinations, true);
    FromBackIff(sa);
    FromTextNoArrow(sa.method_, sa.conditions);
    BehindArrow(from, x);
    GroupsRead(sa.destinations);
    MergedIsSome(sa.destinations);
    TrimPadLeft(" ", x);
    TrimReadsAlike(x, "");
    if Trim(x) == "" {
      NothingToRead();
    }
  }

  // ------------------------------------------------------------------ other relations

  function Normal(relation: string): string
  {
    if relation == "=" then "=" else "!="
  }

  function NormalRoutes(cs: seq<RouteCondition>): seq<RouteCondition>
  {
    if cs == [] then [] else [cs[0].(relation := Normal(cs[0].relation))] + NormalRoutes(cs[1..])
  }

  function NormalConditions(cs: seq<DestinationCondition>): seq<DestinationCondition>
  {
    if cs == [] then [] else [cs[0].(relation := Normal(cs[0].relation))] + NormalConditions(cs[1..])
  }

  function NormalDestinations(ds: seq<Destination>): seq<Destination>
  {
    if ds == [] then [] else [Destination(NormalConditions(ds[0].conditions), 0)] + NormalDestinations(ds[1..])
  }

  lemma {:induction false} RoutesWrittenAlike(cs: seq<RouteCondition>)
    ensures RoutesText(NormalRoutes(cs)) == RoutesText(cs)
  {
    if cs != [] {
      RoutesWrittenAlike(cs[1..]);
      assert NormalRoutes(cs)[1..] == NormalRoutes(cs[1..]);
    }
  }

  lemma {:induction false} ConditionsWrittenAlike(cs: seq<DestinationCondition>, first: bool)
    ensures ConditionsText(NormalConditions(cs), first) == ConditionsText(cs, first)
  {
    if cs != [] {
      ConditionsWrittenAlike(cs[1..], false);
      assert NormalConditions(cs)[1..] == NormalConditions(cs[1..]);
    }
  }

  lemma {:induction false} DestinationsWrittenAlike(ds: seq<Destination>, first: bool)
    ensures DestinationsText(NormalDestinations(ds), first) == DestinationsText(ds, first)
    ensures |NormalDestinations(ds)| == |ds|
  {
    if ds != [] {
      DestinationsWrittenAlike(ds[1..], false);
      ConditionsWrittenAlike(ds[0].conditions, first);
      assert NormalDestinations(ds)[1..] == NormalDestinations(ds[1..]);
    }
  }

  /** Every relation but "=" is written as "!=", and weights are not written at all: two arguments
      that differ only there have the same expression. */
  lemma WrittenAlike(sa: ServiceArgument)
    ensures Expression(sa)
         == Expression(ServiceArgument(NormalRoutes(sa.conditions), NormalDestinations(sa.destinations), sa.method_))
  {
    RoutesWrittenAlike(sa.conditions);
    DestinationsWrittenAlike(sa.destinations, true);
  }
}
