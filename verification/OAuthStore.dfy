/** The OAuth transaction store: a map with an expiry queue, refining a map with expiry times. */
module OAuthStore {
  import opened Ordering
  import opened Wrappers

  datatype Transaction = Transaction(providerId: string, state: string, codeVerifier: string, nonce: string)

  // --------------------------------------------------- the reference: a timed map

  datatype Stored = Stored(transaction: Transaction, expiresAt: int)

  type TimedMap = map<string, Stored>

  function Unexpired(m: TimedMap, now: int): TimedMap
  {
    map s | s in m && now < m[s].expiresAt :: m[s]
  }

  /** Full exactly when capacity other transactions are still unexpired. */
  predicate Full(m: TimedMap, state: string, now: int, capacity: int)
  {
    |Unexpired(m, now) - {state}| >= capacity
  }

  function PutInto(m: TimedMap, tx: Transaction, now: int, ttl: int, capacity: int): TimedMap
  {
    if Full(m, tx.state, now, capacity) then Unexpired(m, now)
    else Unexpired(m, now)[tx.state := Stored(tx, now + ttl)]
  }

  lemma PutIntoStores(m: TimedMap, tx: Transaction, now: int, ttl: int, capacity: int)
    requires !Full(m, tx.state, now, capacity)
    ensures var m' := PutInto(m, tx, now, ttl, capacity); tx.state in m' && m'[tx.state] == Stored(tx, now + ttl)
  {
  }

  function Lookup(m: TimedMap, state: string, now: int): Option<Transaction>
  {
    if state in m && now < m[state].expiresAt then Some(m[state].transaction) else None
  }

  // ------------------------------------------------------------------ the store

  /** A list element; its value never changes. */
  class Element {
    const transaction: Transaction
    const expiresAt: int

    constructor (transaction: Transaction, expiresAt: int)
      ensures this.transaction == transaction && this.expiresAt == expiresAt
    {
      this.transaction, this.expiresAt := transaction, expiresAt;
    }
  }

  ghost predicate SortedByExpiry(q: seq<Element>)
  {
    forall i, j :: 0 <= i < j < |q| ==> q[i].expiresAt <= q[j].expiresAt
  }

  /** Map and queue hold the same elements, each under its own state. */
  ghost predicate Bijective(items: map<string, Element>, q: seq<Element>)
  {
    && Distinct(q)
    && (forall s :: Queued(items, q, s))
    && (forall i: nat :: Filed(items, q, i))
  }

  ghost predicate Queued(items: map<string, Element>, q: seq<Element>, s: string)
  {
    s in items ==> items[s].transaction.state == s && items[s] in q
  }

  ghost predicate Filed(items: map<string, Element>, q: seq<Element>, i: nat)
  {
    i < |q| ==> q[i].transaction.state in items && items[q[i].transaction.state] == q[i]
  }

  function Contents(items: map<string, Element>): TimedMap
  {
    map s | s in items :: Stored(items[s].transaction, items[s].expiresAt)
  }

  /** Every element expires within `horizon`, in queue order, and the map keeps its bound. */
  ghost predicate StoreOk(items: map<string, Element>, q: seq<Element>, horizon: int, capacity: nat)
  {
    && Bijective(items, q)
    && SortedByExpiry(q)
    && (forall i :: 0 <= i < |q| ==> q[i].expiresAt <= horizon)
    && |items| <= capacity
  }

  function DropAt(q: seq<Element>, i: nat): seq<Element>
    requires i < |q|
  {
    q[..i] + q[i + 1..]
  }

  lemma DropKeepsBijection(items: map<string, Element>, q: seq<Element>, i: nat)
    requires Bijective(items, q) && i < |q|
    ensures Bijective(items - {q[i].transaction.state}, DropAt(q, i))
  {
    var items', q' := items - {q[i].transaction.state}, DropAt(q, i);
    DropMembers(q, i);
    assert Filed(items, q, i);
    forall s ensures Queued(items', q', s) {
      assert Queued(items, q, s);
    }
    forall j: nat ensures Filed(items', q', j) {
      assert Filed(items, q, if j < i then j else j + 1);
    }
  }

  lemma DropMembers(q: seq<Element>, i: nat)
    requires Distinct(q) && i < |q|
    ensures Distinct(DropAt(q, i))
    ensures forall e :: e in DropAt(q, i) <==> e in q && e != q[i]
  {
    assert q == q[..i] + [q[i]] + q[i + 1..];
  }

  lemma DropKeepsStore(items: map<string, Element>, q: seq<Element>, i: nat, horizon: int, capacity: nat)
    requires StoreOk(items, q, horizon, capacity) && i < |q|
    ensures StoreOk(items - {q[i].transaction.state}, DropAt(q, i), horizon, capacity)
    ensures Contents(items - {q[i].transaction.state}) == Contents(items) - {q[i].transaction.state}
  {
    var x := q[i].transaction.state;
    DropKeepsBijection(items, q, i);
    assert (items - {x}).Keys == items.Keys - {x};
  }

  lemma AddKeepsStore(items: map<string, Element>, q: seq<Element>, e: Element, horizon: int, capacity: nat)
    requires StoreOk(items, q, horizon, capacity) && |items| < capacity
    requires e !in q && e.transaction.state !in items && e.expiresAt == horizon
    ensures StoreOk(items[e.transaction.state := e], q + [e], horizon, capacity)
    ensures Contents(items[e.transaction.state := e])
         == Contents(items)[e.transaction.state := Stored(e.transaction, e.expiresAt)]
  {
    var items', q' := items[e.transaction.state := e], q + [e];
    assert items'.Keys == items.Keys + {e.transaction.state};
    forall s ensures Queued(items', q', s) {
      assert Queued(items, q, s);
    }
    forall j: nat ensures Filed(items', q', j) {
      assert Filed(items, q, j);
    }
  }

  lemma ExpiredIsGone(m: TimedMap, s: string, now: int)
    requires s in m ==> m[s].expiresAt <= now
    ensures Unexpired(m - {s}, now) == Unexpired(m, now)
  {
  }

  /** In a sorted queue whose front is unexpired nothing is expired. */
  lemma FrontUnexpired(items: map<string, Element>, q: seq<Element>, now: int)
    requires Bijective(items, q) && SortedByExpiry(q) && (q == [] || now < q[0].expiresAt)
    ensures Unexpired(Contents(items), now) == Contents(items)
  {
    forall s | s in items ensures now < items[s].expiresAt {
      assert Queued(items, q, s);
      var i :| 0 <= i < |q| && q[i] == items[s];
    }
  }

  /** A store that is full for others cannot also hold the state itself. */
  lemma FullLeavesNoRival(live: TimedMap, state: string, capacity: nat)
    requires |live| <= capacity && |live - {state}| >= capacity
    ensures live - {state} == live
  {
    assert (live - {state}).Keys == live.Keys - {state};
    assert state in live ==> |live.Keys - {state}| == |live.Keys| - 1;
  }

  lemma ReplaceAfterDiscard(m: TimedMap, state: string, v: Stored)
    ensures (m - {state})[state := v] == m[state := v]
  {
  }

  class TransactionStore {
    const ttl: int
    const capacity: nat
    var items: map<string, Element>
    var expiryQueue: seq<Element>
    /** The latest time an operation has seen. */
    ghost var lastNow: int

    constructor (ttl: int, capacity: nat, ghost now: int)
      ensures this.ttl == ttl && this.capacity == capacity && lastNow == now
      ensures Valid() && View() == map[]
    {
      this.ttl, this.capacity := ttl, capacity;
      items, expiryQueue, lastNow := map[], [], now;
    }

    ghost predicate Valid()
      reads this
    {
      StoreOk(items, expiryQueue, lastNow + ttl, capacity)
    }

    function View(): TimedMap
      reads this
    {
      Contents(items)
    }

    method Remove(element: Element)
      requires Valid() && element in expiryQueue
      modifies this`items, this`expiryQueue
      ensures Valid() && View() == old(View()) - {element.transaction.state}
      ensures |expiryQueue| < |old(expiryQueue)|
    {
      var i :| 0 <= i < |expiryQueue| && expiryQueue[i] == element;
      DropKeepsStore(items, expiryQueue, i, lastNow + ttl, capacity);
      items := items - {element.transaction.state};
      expiryQueue := DropAt(expiryQueue, i);
    }

    method RemoveExpired(now: int)
      requires Valid()
      modifies this`items, this`expiryQueue
      ensures Valid() && View() == Unexpired(old(View()), now) && |View()| <= capacity
    {
      while expiryQueue != [] && expiryQueue[0].expiresAt <= now
        invariant Valid()
        invariant Unexpired(View(), now) == Unexpired(old(View()), now)
        decreases |expiryQueue|
      {
        var front := expiryQueue[0];
        assert Filed(items, expiryQueue, 0);
        ExpiredIsGone(View(), front.transaction.state, now);
        Remove(front);
      }
      FrontUnexpired(items, expiryQueue, now);
      assert View().Keys == items.Keys;
    }

    /** Replaces whatever is stored under the state. */
    method Discard(state: string)
      requires Valid()
      modifies this`items, this`expiryQueue
      ensures Valid() && View() == old(View()) - {state}
      ensures |items| == |View()| && state !in items
    {
      if state in items {
        assert Queued(items, expiryQueue, state);
        Remove(items[state]);
      } else {
        assert View() - {state} == View();
      }
      assert View().Keys == items.Keys;
    }

    method Append(transaction: Transaction, now: int)
      requires Valid() && lastNow <= now && |items| < capacity && transaction.state !in items
      modifies this
      ensures Valid() && lastNow == now
      ensures View() == old(View())[transaction.state := Stored(transaction, now + ttl)]
    {
      var element := new Element(transaction, now + ttl);
      lastNow := now;
      AddKeepsStore(items, expiryQueue, element, now + ttl, capacity);
      expiryQueue := expiryQueue + [element];
      items := items[transaction.state := element];
    }

    method Put(transaction: Transaction, now: int) returns (ok: bool)
      requires Valid() && lastNow <= now
      modifies this
      ensures Valid() && lastNow == now
      ensures ok <==> !Full(old(View()), transaction.state, now, capacity)
      ensures View() == PutInto(old(View()), transaction, now, ttl, capacity)
    {
      RemoveExpired(now);
      ghost var live := View();
      Discard(transaction.state);
      assert Full(old(View()), transaction.state, now, capacity) == (|items| >= capacity);
      if |items| >= capacity {
        FullLeavesNoRival(live, transaction.state, capacity);
        lastNow := now;
        return false;
      }
      Append(transaction, now);
      ReplaceAfterDiscard(live, transaction.state, Stored(transaction, now + ttl));
      return true;
    }

    method Consume(state: string, now: int) returns (r: Option<Transaction>)
      requires Valid()
      modifies this`items, this`expiryQueue
      ensures Valid()
      ensures r == Lookup(old(View()), state, now)
      ensures View() == old(View()) - {state}
    {
      if state !in items {
        assert View() == View() - {state};
        return None;
      }
      var element := items[state];
      assert Queued(items, expiryQueue, state);
      Remove(element);
      if element.expiresAt <= now {
        return None;
      }
      return Some(element.transaction);
    }
  }
}
