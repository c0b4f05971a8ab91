/** The store never removes what has expired, it only filters when reading.
    This module shows that no search can tell: a store that also purges expired
    entries, any of them at any moments, offers every search the same entries. */
module LazyExpiry {
  import opened Store

  datatype Op =
    | Upsert(entry: Entry)
    | IncrementHit(id: string)
    | Delete(filter: Filter)
    | Clear
    | Advance(dt: real)
    | Purge(ids: set<string>)

  datatype Timed = Timed(entries: Entries, now: real)

  function Purged(m: Entries, ids: set<string>, now: real): Entries {
    map id | id in m && !(id in ids && m[id].IsExpired(now)) :: m[id]
  }

  function Step(s: Timed, op: Op, eager: bool): Timed {
    match op
    case Upsert(e) => s.(entries := s.entries[e.id := e])
    case IncrementHit(id) => s.(entries := Hit(s.entries, id))
    case Delete(f) => s.(entries := Deleted(s.entries, f))
    case Clear => s.(entries := map[])
    case Advance(dt) => s.(now := s.now + dt)
    case Purge(ids) => if eager then s.(entries := Purged(s.entries, ids, s.now)) else s
  }

  function Run(s: Timed, ops: seq<Op>, eager: bool): Timed {
    if ops == [] then s else Step(Run(s, ops[..|ops| - 1], eager), ops[|ops| - 1], eager)
  }

  ghost predicate TimeForward(ops: seq<Op>) {
    forall i | 0 <= i < |ops| && ops[i].Advance? :: ops[i].dt >= 0.0
  }

  /** The purging store holds the same entries, short only of expired ones. */
  ghost predicate Simulates(lazy: Timed, eager: Timed) {
    && lazy.now == eager.now
    && (forall id | id in eager.entries :: id in lazy.entries && lazy.entries[id] == eager.entries[id])
    && (forall id | id in lazy.entries && id !in eager.entries :: lazy.entries[id].IsExpired(lazy.now))
  }

  lemma StepSimulates(lazy: Timed, eager: Timed, op: Op)
    requires Simulates(lazy, eager) && (op.Advance? ==> op.dt >= 0.0)
    ensures Simulates(Step(lazy, op, false), Step(eager, op, true))
  {
    if op.Advance? {
      forall id | id in lazy.entries && id !in eager.entries
        ensures lazy.entries[id].IsExpired(lazy.now + op.dt)
      {
        ExpiryIsFinal(lazy.entries[id], lazy.now, lazy.now + op.dt);
      }
    }
  }

  lemma {:induction false} RunSimulates(s: Timed, ops: seq<Op>)
    requires TimeForward(ops)
    ensures Simulates(Run(s, ops, false), Run(s, ops, true))
  {
    if ops != [] {
      var k := |ops| - 1;
      RunSimulates(s, ops[..k]);
      StepSimulates(Run(s, ops[..k], false), Run(s, ops[..k], true), ops[k]);
    }
  }

  /** After every run in which time never goes back, the two stores show the
      same live entries in every namespace, hence allow the same search answers. */
  lemma LazyExpiryIsInvisible(s: Timed, ops: seq<Op>, namespace: string)
    requires TimeForward(ops)
    ensures var lazy, eager := Run(s, ops, false), Run(s, ops, true);
            Live(lazy.entries, namespace, lazy.now) == Live(eager.entries, namespace, eager.now)
  {
    RunSimulates(s, ops);
  }
}
