/** The two counters: one number per group, and one number per group and key. */
module Counters {
  type Tally = map<string, int>
  type Distribution = map<string, Tally>

  function Group(group: string): string
  {
    if group == "" then "default" else group
  }

  function KeyName(key: string): string
  {
    if key == "" then "unknown" else key
  }

  function At(data: Tally, g: string): int
  {
    if g in data then data[g] else 0
  }

  function Cell(data: Distribution, g: string, k: string): int
  {
    if g in data then At(data[g], k) else 0
  }

  /** No entry is kept for nothing. */
  ghost predicate Positive(data: Tally)
  {
    forall g :: g in data ==> data[g] > 0
  }

  ghost predicate Compact(data: Distribution)
  {
    forall g :: g in data ==> Positive(data[g]) && data[g] != map[]
  }

  function Plus(data: Tally, g: string): Tally
  {
    data[g := At(data, g) + 1]
  }

  function Minus(data: Tally, g: string): Tally
  {
    if g !in data then data
    else if data[g] - 1 <= 0 then data - {g}
    else data[g := data[g] - 1]
  }

  function PlusCell(data: Distribution, g: string, k: string): Distribution
  {
    data[g := Plus(if g in data then data[g] else map[], k)]
  }

  function MinusCell(data: Distribution, g: string, k: string): Distribution
  {
    if g !in data || k !in data[g] then data
    else
      var rest := Minus(data[g], k);
      if rest == map[] then data - {g} else data[g := rest]
  }

  // ------------------------------------------------- what the operations do to a count

  lemma PlusCounts(data: Tally, g: string, h: string)
    requires Positive(data)
    ensures Positive(Plus(data, g))
    ensures At(Plus(data, g), h) == At(data, h) + if h == g then 1 else 0
  {
  }

  /** A decrement never takes a count below zero, and an entry that reaches zero is dropped. */
  lemma MinusCounts(data: Tally, g: string, h: string)
    requires Positive(data)
    ensures Positive(Minus(data, g))
    ensures At(data, h) >= 0
    ensures At(Minus(data, g), h) == At(data, h) - if h == g && At(data, h) > 0 then 1 else 0
  {
  }

  lemma PlusCellCounts(data: Distribution, g: string, k: string, h: string, j: string)
    requires Compact(data)
    ensures Compact(PlusCell(data, g, k))
    ensures Cell(PlusCell(data, g, k), h, j) == Cell(data, h, j) + if (h, j) == (g, k) then 1 else 0
  {
    PlusCounts(if g in data then data[g] else map[], k, j);
    assert k in PlusCell(data, g, k)[g];
  }

  lemma MinusCellCounts(data: Distribution, g: string, k: string, h: string, j: string)
    requires Compact(data)
    ensures Compact(MinusCell(data, g, k))
    ensures Cell(data, h, j) >= 0
    ensures Cell(MinusCell(data, g, k), h, j)
         == Cell(data, h, j) - if (h, j) == (g, k) && Cell(data, h, j) > 0 then 1 else 0
  {
    if g in data {
      MinusCounts(data[g], k, j);
    }
  }

  // --------------------------------------------------------------------- summing

  ghost function Sum(keys: set<string>, f: string -> int): int
  {
    if keys == {} then 0
    else
      var k :| k in keys;
      f(k) + Sum(keys - {k}, f)
  }

  lemma {:induction false} SumWithout(keys: set<string>, f: string -> int, k: string)
    requires k in keys
    ensures Sum(keys, f) == f(k) + Sum(keys - {k}, f)
  {
    var first :| first in keys && Sum(keys, f) == f(first) + Sum(keys - {first}, f);
    if first != k {
      SumWithout(keys - {first}, f, k);
      SumWithout(keys - {k}, f, first);
      assert keys - {first} - {k} == keys - {k} - {first};
    }
  }

  lemma {:induction false} SumSame(keys: set<string>, f: string -> int, g: string -> int)
    requires forall k :: k in keys ==> f(k) == g(k)
    ensures Sum(keys, f) == Sum(keys, g)
  {
    if keys != {} {
      var k :| k in keys;
      SumWithout(keys, f, k);
      SumWithout(keys, g, k);
      SumSame(keys - {k}, f, g);
    }
  }

  function Counts(data: Tally): string -> int
  {
    g => At(data, g)
  }

  function CountsOfKey(data: Distribution, k: string): string -> int
  {
    g => Cell(data, g, k)
  }

  ghost function Total(data: Tally): int
  {
    Sum(data.Keys, Counts(data))
  }

  /** The number for one key over all groups. */
  ghost function KeyTotal(data: Distribution, k: string): int
  {
    Sum(data.Keys, CountsOfKey(data, k))
  }

  class Counter {
    var data: Tally

    constructor ()
      ensures data == map[]
    {
      data := map[];
    }

    method Get() returns (sum: int)
      ensures sum == Total(data)
    {
      sum := 0;
      var rest := data.Keys;
      while rest != {}
        invariant rest <= data.Keys
        invariant sum + Sum(rest, Counts(data)) == Total(data)
        decreases |rest|
      {
        var g :| g in rest;
        SumWithout(rest, Counts(data), g);
        sum := sum + data[g];
        rest := rest - {g};
      }
    }

    method GetByGroup(group: string) returns (n: int)
      ensures n == At(data, Group(group))
    {
      var g := if group == "" then "default" else group;
      n := if g in data then data[g] else 0;
    }

    method Increment(group: string)
      modifies this
      ensures data == Plus(old(data), Group(group))
    {
      var g := if group == "" then "default" else group;
      data := data[g := (if g in data then data[g] else 0) + 1];
    }

    method Decrement(group: string)
      modifies this
      ensures data == Minus(old(data), Group(group))
    {
      var g := if group == "" then "default" else group;
      if g in data {
        var value := data[g] - 1;
        if value <= 0 {
          data := data - {g};
        } else {
          data := data[g := value];
        }
      }
    }

    method Reset()
      modifies this
      ensures data == map[]
    {
      data := map[];
    }
  }

  class DistributionCounter {
    var data: Distribution

    constructor ()
      ensures data == map[]
    {
      data := map[];
    }

    method Increment(group: string, key: string)
      modifies this
      ensures data == PlusCell(old(data), Group(group), KeyName(key))
    {
      var g := if group == "" then "default" else group;
      var k := if key == "" then "unknown" else key;
      if g !in data {
        data := data[g := map[]];
      }
      data := data[g := data[g][k := (if k in data[g] then data[g][k] else 0) + 1]];
    }

    method Decrement(group: string, key: string)
      modifies this
      ensures data == MinusCell(old(data), Group(group), KeyName(key))
    {
      var g := if group == "" then "default" else group;
      var k := if key == "" then "unknown" else key;
      if g !in data {
        return;
      }
      var groupData := data[g];
      if k in groupData {
        var value := groupData[k] - 1;
        if value <= 0 {
          groupData := groupData - {k};
          if groupData == map[] {
            data := data - {g};
          } else {
            data := data[g := groupData];
          }
        } else {
          groupData := groupData[k := value];
          assert k in groupData;
          data := data[g := groupData];
        }
      }
    }

    method Merge(into: Tally, group: Tally) returns (result: Tally)
      ensures forall k :: At(result, k) == At(into, k) + At(group, k)
    {
      result := into;
      var rest := group.Keys;
      while rest != {}
        invariant rest <= group.Keys
        invariant forall k :: At(result, k) == At(into, k) + if k in rest then 0 else At(group, k)
        decreases |rest|
      {
        var k :| k in rest;
        result := result[k := (if k in result then result[k] else 0) + group[k]];
        rest := rest - {k};
      }
    }

    method GetAll() returns (result: Tally)
      ensures forall k :: At(result, k) == KeyTotal(data, k)
    {
      result := map[];
      var rest := data.Keys;
      while rest != {}
        invariant rest <= data.Keys
        invariant forall k :: At(result, k) + Sum(rest, CountsOfKey(data, k)) == KeyTotal(data, k)
        decreases |rest|
      {
        var g :| g in rest;
        forall k ensures Sum(rest, CountsOfKey(data, k)) == Cell(data, g, k) + Sum(rest - {g}, CountsOfKey(data, k)) {
          SumWithout(rest, CountsOfKey(data, k), g);
        }
        result := Merge(result, data[g]);
        rest := rest - {g};
      }
    }

    method GetByGroup(group: string) returns (result: Tally)
      ensures forall k :: At(result, k) == Cell(data, Group(group), k)
    {
      var g := if group == "" then "default" else group;
      if g !in data {
        return map[];
      }
      var m: Tally := Merge(map[], data[g]);
      return m;
    }

    method Reset()
      modifies this
      ensures data == map[]
    {
      data := map[];
    }
  }
}
