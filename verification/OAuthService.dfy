/**
 The login service over the transaction store: Begin, Complete, and what any sequence of
 requests can make the providers' Authenticate do.
 */
module OAuthService {
  import opened Wrappers
  import opened OAuthStore

  datatype Provider = Provider(needsNonce: bool)

  datatype Config = Config(providers: map<string, Provider>, ttl: int, capacity: nat)

  /** A request, with the time it reads and, for Begin, what the random source yields (None when
      it fails). `cookie` is the transaction the browser sends back. */
  datatype Request =
    | Begin(now: int, providerId: string, drawn: Option<string>, verifier: Option<string>, nonce: Option<string>)
    | Complete(now: int, providerId: string, state: string, code: string, cookie: Transaction)

  datatype Outcome =
    | Began(transaction: Transaction)
    | Authenticate(provider: string, code: string, verifier: string, nonce: string)
    | ProviderNotFound
    | RandomSourceFailed
    | StoreFull
    | ProviderMismatch
    | StateMismatch
    | TransactionGone
    | CodeMissing

  // -------------------------------------------------- the service as a function

  /** The transaction Begin would store, when the provider exists and randomness does not fail. */
  function Prepared(cfg: Config, r: Request): Option<Transaction>
    requires r.Begin?
  {
    if r.providerId !in cfg.providers || r.drawn.None? || r.verifier.None? then None
    else if cfg.providers[r.providerId].needsNonce && r.nonce.None? then None
    else
      var nonce := if cfg.providers[r.providerId].needsNonce then r.nonce.value else "";
      Some(Transaction(r.providerId, r.drawn.value, r.verifier.value, nonce))
  }

  function BeginOn(cfg: Config, m: TimedMap, r: Request): (TimedMap, Outcome)
    requires r.Begin?
  {
    var tx := Prepared(cfg, r);
    if tx.None? then (m, if r.providerId in cfg.providers then RandomSourceFailed else ProviderNotFound)
    else
      (PutInto(m, tx.value, r.now, cfg.ttl, cfg.capacity),
       if Full(m, tx.value.state, r.now, cfg.capacity) then StoreFull else Began(tx.value))
  }

  function CompleteOn(cfg: Config, m: TimedMap, r: Request): (TimedMap, Outcome)
    requires r.Complete?
  {
    if r.providerId != r.cookie.providerId then (m, ProviderMismatch)
    else if r.state != r.cookie.state then (m, StateMismatch)
    else
      var stored := Lookup(m, r.state, r.now);
      (m - {r.state},
       if stored.None? then TransactionGone
       else if r.providerId != stored.value.providerId then ProviderMismatch
       else if r.providerId !in cfg.providers then ProviderNotFound
       else if r.code == "" then CodeMissing
       else Authenticate(r.providerId, r.code, stored.value.codeVerifier, stored.value.nonce))
  }

  function Serve(cfg: Config, m: TimedMap, r: Request): (TimedMap, Outcome)
  {
    if r.Begin? then BeginOn(cfg, m, r) else CompleteOn(cfg, m, r)
  }

  // ------------------------------------------------------------- the service object

  class Service {
    const cfg: Config
    const store: TransactionStore

    constructor (cfg: Config, ghost now: int)
      ensures this.cfg == cfg && Valid() && fresh(store)
      ensures store.View() == map[] && store.lastNow == now
    {
      this.cfg := cfg;
      store := new TransactionStore(cfg.ttl, cfg.capacity, now);
    }

    ghost predicate Valid()
      reads this, store
    {
      store.Valid() && store.ttl == cfg.ttl && store.capacity == cfg.capacity
    }

    method Begin(r: Request) returns (outcome: Outcome)
      requires Valid() && r.Begin? && store.lastNow <= r.now
      modifies store
      ensures Valid() && store.lastNow <= r.now
      ensures (store.View(), outcome) == Serve(cfg, old(store.View()), r)
    {
      if r.providerId !in cfg.providers {
        return ProviderNotFound;
      }
      if r.drawn.None? || r.verifier.None? {
        return RandomSourceFailed;
      }
      var transaction := Transaction(r.providerId, r.drawn.value, r.verifier.value, "");
      if cfg.providers[r.providerId].needsNonce {
        if r.nonce.None? {
          return RandomSourceFailed;
        }
        transaction := transaction.(nonce := r.nonce.value);
      }
      var ok := store.Put(transaction, r.now);
      return if ok then Began(transaction) else StoreFull;
    }

    method Complete(r: Request) returns (outcome: Outcome)
      requires Valid() && r.Complete?
      modifies store
      ensures Valid() && store.lastNow == old(store.lastNow)
      ensures (store.View(), outcome) == Serve(cfg, old(store.View()), r)
    {
      if r.providerId != r.cookie.providerId {
        return ProviderMismatch;
      }
      if r.state != r.cookie.state {
        return StateMismatch;
      }
      var stored := store.Consume(r.state, r.now);
      if stored.None? {
        return TransactionGone;
      }
      if r.providerId != stored.value.providerId {
        return ProviderMismatch;
      }
      if r.providerId !in cfg.providers {
        return ProviderNotFound;
      }
      if r.code == "" {
        return CodeMissing;
      }
      return Authenticate(r.providerId, r.code, stored.value.codeVerifier, stored.value.nonce);
    }
  }

  // -------------------------------------------------------------- whole sessions

  /** The store and the outcomes after a sequence of requests to a new service. */
  function Session(cfg: Config, rs: seq<Request>): (r: (TimedMap, seq<Outcome>))
    ensures |r.1| == |rs|
  {
    if rs == [] then (map[], [])
    else
      var before := Session(cfg, rs[..|rs| - 1]);
      var last := Serve(cfg, before.0, rs[|rs| - 1]);
      (last.0, before.1 + [last.1])
  }

  /** Begin never draws a state that an earlier Begin drew. */
  predicate StatesDistinct(rs: seq<Request>)
  {
    forall i, j :: 0 <= i < j < |rs| && rs[i].Begin? && rs[j].Begin? && rs[i].drawn.Some? ==>
      rs[i].drawn != rs[j].drawn
  }

  /** Request i is the Begin that stored a transaction under its state. */
  predicate BeganAt(cfg: Config, rs: seq<Request>, i: nat, state: string, v: Stored)
  {
    && i < |rs| && rs[i].Begin? && rs[i].drawn == Some(state)
    && Session(cfg, rs).1[i] == Began(v.transaction)
    && v.expiresAt == rs[i].now + cfg.ttl
  }

  lemma SessionPrefix(cfg: Config, rs: seq<Request>)
    requires rs != []
    ensures Session(cfg, rs).1[..|rs| - 1] == Session(cfg, rs[..|rs| - 1]).1
  {
  }

  lemma BeginStores(cfg: Config, m: TimedMap, r: Request, state: string)
    requires r.Begin? && state in BeginOn(cfg, m, r).0
    ensures var v := BeginOn(cfg, m, r).0[state];
            || (state in m && m[state] == v)
            || (r.drawn == Some(state) && v == Stored(Prepared(cfg, r).value, r.now + cfg.ttl)
                && BeginOn(cfg, m, r).1 == Began(v.transaction))
  {
    if Prepared(cfg, r).Some? {
      assert Prepared(cfg, r).value.state == r.drawn.value;
    }
  }

  /** A request leaves a stored transaction as it was, unless it is the Begin that stored it. */
  lemma ServeStores(cfg: Config, m: TimedMap, r: Request, state: string)
    requires state in Serve(cfg, m, r).0
    ensures var v := Serve(cfg, m, r).0[state];
            || (state in m && m[state] == v)
            || (&& r.Begin? && r.drawn == Some(state) && Serve(cfg, m, r).1 == Began(v.transaction)
                && v.expiresAt == r.now + cfg.ttl)
  {
    if r.Begin? {
      BeginStores(cfg, m, r, state);
    }
  }

  /** Whatever is stored was stored by a Begin of the session, exactly as it prepared it. */
  lemma {:induction false} StoredWasBegun(cfg: Config, rs: seq<Request>, state: string) returns (i: nat)
    requires state in Session(cfg, rs).0
    ensures BeganAt(cfg, rs, i, state, Session(cfg, rs).0[state])
  {
    var n := |rs| - 1;
    SessionPrefix(cfg, rs);
    var before := Session(cfg, rs[..n]).0;
    ServeStores(cfg, before, rs[n], state);
    if state in before && Session(cfg, rs).0[state] == before[state] {
      i := StoredWasBegun(cfg, rs[..n], state);
      assert Session(cfg, rs).1[i] == Session(cfg, rs).1[..n][i];
    } else {
      i := n;
    }
  }

  predicate Authenticates(cfg: Config, rs: seq<Request>, j: nat)
  {
    j < |rs| && Session(cfg, rs).1[j].Authenticate?
  }

  lemma {:induction false} PrefixOutcome(cfg: Config, rs: seq<Request>, k: nat)
    requires k <= |rs|
    ensures Session(cfg, rs).1[..k] == Session(cfg, rs[..k]).1
  {
    if k == |rs| {
      assert rs[..k] == rs;
    } else {
      var n := |rs| - 1;
      SessionPrefix(cfg, rs);
      PrefixOutcome(cfg, rs[..n], k);
      assert rs[..n][..k] == rs[..k];
      assert Session(cfg, rs).1[..k] == Session(cfg, rs).1[..n][..k];
    }
  }

  /** Request k is served on the store its predecessors left. */
  lemma ServedAt(cfg: Config, rs: seq<Request>, k: nat)
    requires k < |rs|
    ensures var served := Serve(cfg, Session(cfg, rs[..k]).0, rs[k]);
            Session(cfg, rs).1[k] == served.1 && Session(cfg, rs[..k + 1]).0 == served.0
  {
    PrefixOutcome(cfg, rs, k + 1);
    var upto := rs[..k + 1];
    assert upto[..k] == rs[..k] && upto[k] == rs[k];
    assert Session(cfg, rs).1[k] == Session(cfg, rs).1[..k + 1][k];
  }

  lemma ServeBegan(cfg: Config, m: TimedMap, r: Request)
    requires Serve(cfg, m, r).1.Began?
    ensures r.Begin? && Prepared(cfg, r) == Some(Serve(cfg, m, r).1.transaction)
  {
  }

  lemma BeganIsStored(cfg: Config, m: TimedMap, r: Request)
    requires Serve(cfg, m, r).1.Began?
    ensures r.Begin? && r.drawn.Some? && r.drawn.value in Serve(cfg, m, r).0
    ensures Serve(cfg, m, r).0[r.drawn.value] == Stored(Serve(cfg, m, r).1.transaction, r.now + cfg.ttl)
  {
    ServeBegan(cfg, m, r);
    PutIntoStores(m, Prepared(cfg, r).value, r.now, cfg.ttl, cfg.capacity);
  }

  /** Authenticate is called only for a transaction a Begin of the same provider stored under that
      state, before it expired, with exactly the verifier and nonce that Begin drew. */
  lemma AuthenticateMatchesBegin(cfg: Config, rs: seq<Request>, j: nat) returns (i: nat)
    requires Authenticates(cfg, rs, j)
    ensures i < j && rs[i].Begin? && rs[j].Complete?
    ensures rs[i].providerId == rs[j].providerId && rs[i].drawn == Some(rs[j].state)
    ensures rs[j].cookie.providerId == rs[j].providerId && rs[j].cookie.state == rs[j].state && rs[j].code != ""
    ensures rs[j].now < rs[i].now + cfg.ttl
    ensures Session(cfg, rs).1[i].Began?
    ensures Session(cfg, rs).1[j].provider == rs[j].providerId && Session(cfg, rs).1[j].code == rs[j].code
    ensures Some(Session(cfg, rs).1[j].verifier) == rs[i].verifier
    ensures rs[i].providerId in cfg.providers
    ensures if cfg.providers[rs[i].providerId].needsNonce
            then Some(Session(cfg, rs).1[j].nonce) == rs[i].nonce
            else Session(cfg, rs).1[j].nonce == ""
  {
    PrefixOutcome(cfg, rs, j);
    ServedAt(cfg, rs, j);
    i := StoredWasBegun(cfg, rs[..j], rs[j].state);
    assert Session(cfg, rs).1[i] == Session(cfg, rs).1[..j][i];
    BeganPrepared(cfg, rs, i);
  }

  lemma BeganPrepared(cfg: Config, rs: seq<Request>, i: nat)
    requires i < |rs| && Session(cfg, rs).1[i].Began?
    ensures rs[i].Begin? && Prepared(cfg, rs[i]) == Some(Session(cfg, rs).1[i].transaction)
  {
    ServedAt(cfg, rs, i);
    ServeBegan(cfg, Session(cfg, rs[..i]).0, rs[i]);
  }

  /** A Complete that gets as far as taking the transaction out of the store. */
  predicate Consumes(r: Request)
  {
    r.Complete? && r.providerId == r.cookie.providerId && r.state == r.cookie.state
  }

  lemma NotDrawnAgain(rs: seq<Request>, i: nat, k: nat)
    requires StatesDistinct(rs) && i < k < |rs| && rs[i].Begin? && rs[i].drawn.Some?
    ensures rs[k].Begin? ==> rs[k].drawn != rs[i].drawn
  {
  }

  lemma ConsumesTakesOut(cfg: Config, m: TimedMap, r: Request)
    requires Consumes(r)
    ensures r.state !in Serve(cfg, m, r).0
  {
  }

  /** A state a Begin drew, once consumed, does not come back while states are drawn distinct. */
  lemma {:induction false} ConsumedStaysGone(cfg: Config, rs: seq<Request>, i: nat, j: nat, k: nat)
    requires StatesDistinct(rs) && i < j < k <= |rs| && Consumes(rs[j])
    requires rs[i].Begin? && rs[i].drawn == Some(rs[j].state)
    ensures rs[j].state !in Session(cfg, rs[..k]).0
  {
    ServedAt(cfg, rs, k - 1);
    if k == j + 1 {
      ConsumesTakesOut(cfg, Session(cfg, rs[..j]).0, rs[j]);
    } else {
      ConsumedStaysGone(cfg, rs, i, j, k - 1);
      NotDrawnAgain(rs, i, k - 1);
      AbsentStaysAbsent(cfg, Session(cfg, rs[..k - 1]).0, rs[k - 1], rs[j].state);
    }
  }

  lemma AbsentStaysAbsent(cfg: Config, m: TimedMap, r: Request, state: string)
    requires state !in m && (r.Begin? ==> r.drawn != Some(state))
    ensures state !in Serve(cfg, m, r).0
  {
  }

  /** Each state is authenticated at most once, so each Begin leads to at most one Authenticate. */
  lemma AuthenticateOnce(cfg: Config, rs: seq<Request>, j: nat, k: nat)
    requires StatesDistinct(rs) && j < k
    requires Authenticates(cfg, rs, j) && Authenticates(cfg, rs, k)
    ensures rs[j].Complete? && rs[k].Complete? && rs[j].state != rs[k].state
  {
    var i := AuthenticateMatchesBegin(cfg, rs, j);
    ConsumedStaysGone(cfg, rs, i, j, k);
    ServedAt(cfg, rs, k);
  }

  lemma OthersAreKept(cfg: Config, m: TimedMap, r: Request, state: string)
    requires state in m && r.now < m[state].expiresAt
    requires if r.Begin? then r.drawn != Some(state) else Consumes(r) ==> r.state != state
    ensures state in Serve(cfg, m, r).0 && Serve(cfg, m, r).0[state] == m[state]
  {
  }

  /** A later request in time that does not consume this Begin's transaction. */
  predicate LeavesAlone(cfg: Config, begin: Request, later: Request)
    requires begin.Begin?
  {
    later.now < begin.now + cfg.ttl && !(Consumes(later) && Some(later.state) == begin.drawn)
  }

  /** The store never loses a transaction: from its Begin until it expires or is consumed it is
      there, whatever else happens in between. */
  lemma {:induction false} UnexpiredIsKept(cfg: Config, rs: seq<Request>, i: nat, k: nat)
    requires StatesDistinct(rs) && i < k <= |rs| && Session(cfg, rs).1[i].Began? && rs[i].Begin? && rs[i].drawn.Some?
    requires forall j :: i < j < k ==> LeavesAlone(cfg, rs[i], rs[j])
    ensures var m := Session(cfg, rs[..k]).0;
            && rs[i].drawn.value in m
            && m[rs[i].drawn.value] == Stored(Session(cfg, rs).1[i].transaction, rs[i].now + cfg.ttl)
  {
    var before := Session(cfg, rs[..k - 1]).0;
    ServedAt(cfg, rs, k - 1);
    if k == i + 1 {
      BeganIsStored(cfg, before, rs[i]);
    } else {
      UnexpiredIsKept(cfg, rs, i, k - 1);
      assert LeavesAlone(cfg, rs[i], rs[k - 1]);
      OthersAreKept(cfg, before, rs[k - 1], rs[i].drawn.value);
    }
  }

  /** So a Complete with the right provider, state and code, in time, reaches Authenticate. */
  lemma CompleteReachesAuthenticate(cfg: Config, rs: seq<Request>, i: nat, k: nat)
    requires StatesDistinct(rs) && i < k < |rs|
    requires Session(cfg, rs).1[i].Began? && rs[i].Begin? && rs[i].drawn.Some?
    requires forall j :: i < j < k ==> LeavesAlone(cfg, rs[i], rs[j])
    requires rs[k].Complete? && Some(rs[k].state) == rs[i].drawn && rs[k].providerId == rs[i].providerId
    requires rs[k].cookie.state == rs[k].state && rs[k].cookie.providerId == rs[k].providerId
    requires rs[k].code != "" && rs[k].now < rs[i].now + cfg.ttl
    ensures Authenticates(cfg, rs, k)
  {
    UnexpiredIsKept(cfg, rs, i, k);
    BeganPrepared(cfg, rs, i);
    ServedAt(cfg, rs, k);
  }

  // ------------------------------------------------------- who gets through, exactly

  predicate TimesOrdered(rs: seq<Request>)
  {
    forall i, j :: 0 <= i < j < |rs| ==> rs[i].now <= rs[j].now
  }

  /** Begin i opened the transaction that request j completes: same provider and state, still in
      time, and no completion in between has used it up. */
  ghost predicate OpenedBy(cfg: Config, rs: seq<Request>, i: nat, j: nat)
    requires j < |rs| && rs[j].Complete?
  {
    && i < j && rs[i].Begin? && Session(cfg, rs).1[i].Began?
    && rs[i].drawn == Some(rs[j].state) && rs[i].providerId == rs[j].providerId
    && rs[j].now < rs[i].now + cfg.ttl
    && forall k :: i < k < j ==> !(Consumes(rs[k]) && rs[k].state == rs[j].state)
  }

  /** A Complete reaches Authenticate exactly when its cookie matches, it brings a code, and an
      earlier Begin opened the transaction. */
  lemma AuthenticatesIff(cfg: Config, rs: seq<Request>, j: nat)
    requires StatesDistinct(rs) && TimesOrdered(rs) && j < |rs| && rs[j].Complete?
    ensures Authenticates(cfg, rs, j)
       <==> Consumes(rs[j]) && rs[j].code != "" && exists i: nat :: OpenedBy(cfg, rs, i, j)
  {
    if Authenticates(cfg, rs, j) {
      var i := AuthenticateMatchesBegin(cfg, rs, j);
      forall k | i < k < j ensures !(Consumes(rs[k]) && rs[k].state == rs[j].state) {
        if Consumes(rs[k]) && rs[k].state == rs[j].state {
          ConsumedStaysGone(cfg, rs, i, k, j);
          ServedAt(cfg, rs, j);
        }
      }
      assert OpenedBy(cfg, rs, i, j);
    }
    if Consumes(rs[j]) && rs[j].code != "" && exists i: nat :: OpenedBy(cfg, rs, i, j) {
      var i: nat :| OpenedBy(cfg, rs, i, j);
      CompleteReachesAuthenticate(cfg, rs, i, j);
    }
  }

  /** The transactions that take up room when another is stored: the unexpired ones of other states. */
  function Rivals(m: TimedMap, state: string, now: int): set<string>
  {
    set s | s in m && s != state && now < m[s].expiresAt
  }

  /** Everything Begin needs is there. */
  predicate Drawable(cfg: Config, r: Request)
    requires r.Begin?
  {
    && r.providerId in cfg.providers && r.drawn.Some? && r.verifier.Some?
    && (cfg.providers[r.providerId].needsNonce ==> r.nonce.Some?)
  }

  lemma FullIff(m: TimedMap, state: string, now: int, capacity: nat)
    ensures Full(m, state, now, capacity) <==> |Rivals(m, state, now)| >= capacity
  {
    assert (Unexpired(m, now) - {state}).Keys == Rivals(m, state, now);
  }

  /** What a Begin answers, and exactly when: it fails for want of a provider, of randomness or of
      room. */
  lemma BeginAnswers(cfg: Config, m: TimedMap, r: Request)
    requires r.Begin?
    ensures var outcome := Serve(cfg, m, r).1;
            && (outcome.ProviderNotFound? <==> r.providerId !in cfg.providers)
            && (outcome.RandomSourceFailed? <==> r.providerId in cfg.providers && !Drawable(cfg, r))
            && (outcome.StoreFull? <==> Drawable(cfg, r) && |Rivals(m, r.drawn.value, r.now)| >= cfg.capacity)
            && (outcome.Began? <==> Drawable(cfg, r) && |Rivals(m, r.drawn.value, r.now)| < cfg.capacity)
  {
    if Drawable(cfg, r) {
      FullIff(m, r.drawn.value, r.now, cfg.capacity);
    }
  }

  /** A Begin purges what has expired and pushes nothing else out, full or not. */
  lemma BeginKeepsOthers(cfg: Config, m: TimedMap, r: Request, s: string)
    requires r.Begin? && r.drawn != Some(s)
    ensures var m' := BeginOn(cfg, m, r).0;
            && (s in m' <==> s in m && (Drawable(cfg, r) ==> r.now < m[s].expiresAt))
            && (s in m' ==> m'[s] == m[s])
  {
  }

  predicate Waiting(m: TimedMap, r: Request)
    requires r.Complete?
  {
    r.state in m && r.now < m[r.state].expiresAt
  }

  /** What a Complete answers, and exactly when; the transaction is used up as soon as the cookie
      matches, whatever fails later, and by nothing else. */
  lemma CompleteAnswers(cfg: Config, m: TimedMap, r: Request)
    requires r.Complete?
    ensures var served := Serve(cfg, m, r);
            var same := Waiting(m, r) && m[r.state].transaction.providerId == r.providerId;
            && (served.1.StateMismatch? <==> r.providerId == r.cookie.providerId && r.state != r.cookie.state)
            && (served.1.ProviderMismatch? <==> r.providerId != r.cookie.providerId
                                                || (Consumes(r) && Waiting(m, r) && !same))
            && (served.1.TransactionGone? <==> Consumes(r) && !Waiting(m, r))
            && (served.1.ProviderNotFound? <==> Consumes(r) && same && r.providerId !in cfg.providers)
            && (served.1.CodeMissing? <==> Consumes(r) && same && r.providerId in cfg.providers && r.code == "")
            && (served.1.Authenticate? <==> Consumes(r) && same && r.providerId in cfg.providers && r.code != "")
            && served.0 == (if Consumes(r) then m - {r.state} else m)
  {
  }
}
