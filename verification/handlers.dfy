/** The two gateway handlers and how each drives one idempotency claim. */
module Handlers {
  import opened Idempotency
  import opened Wrappers

  /** How routing one admitted request went: BaseExceptions of every kind count as raising. */
  datatype Routed =
    | Answer(body: string)
    | RouteRaises
    | StoreRaises(body: string)
    | RaisesAfterStore(body: string)

  datatype Reply =
    | Replayed(body: string, status: int)
    | Conflict
    | Answered(body: string)
    | Failed
    | Streaming

  const OK: int := 200

  const RESPONSES_SUFFIX: string := "\n/v1/responses"

  /** The configured claim lease is positive. */
  type Lease = r: real | r > 0.0 witness 1.0

  /** No in-flight row carries the token. */
  ghost predicate Unclaimed(t: Table, token: string) {
    forall s :: s in t && t[s].Pending() ==> t[s].body != token
  }

  /** Another request: its own token, and real HTTP statuses only. */
  ghost predicate Foreign(e: Event, token: string) {
    match e
    case Reserve(_, other, _, _) => other != token
    case Complete(owner, _, status, _) => owner.token != token && status != 0
    case Release(owner) => owner.token != token
    case Put(_, _, status, _) => status != 0
    case Get(_, _) => true
    case Evict(_) => true
  }

  ghost predicate AllForeign(es: seq<Event>, token: string) {
    forall i | 0 <= i < |es| :: Foreign(es[i], token)
  }

  /** No in-flight row outside the slot carries the token. */
  ghost predicate ClaimedOnlyAt(t: Table, token: string, slot: Slot) {
    forall s :: s in t && s != slot && t[s].Pending() ==> t[s].body != token
  }

  lemma {:induction false} ForeignersNeverClaim(c: Config, t: Table, es: seq<Event>, token: string, slot: Slot)
    requires AllForeign(es, token)
    ensures Unclaimed(t, token) ==> Unclaimed(Final(c, t, es), token)
    ensures ClaimedOnlyAt(t, token, slot) ==> ClaimedOnlyAt(Final(c, t, es), token, slot)
    decreases |es|
  {
    if es != [] {
      var t' := Step(c, t, es[0]).0;
      assert Foreign(es[0], token);
      assert AllForeign(es[1..], token) by {
        forall i | 0 <= i < |es[1..]| ensures Foreign(es[1..][i], token) {
          assert es[1..][i] == es[i + 1];
        }
      }
      ForeignersNeverClaim(c, t', es[1..], token, slot);
    }
  }

  /** Completing or releasing removes the last in-flight row of the claim, whoever holds the slot by then. */
  lemma EndingClearsClaim(c: Config, t: Table, owner: Reservation, body: string, now: real)
    requires ClaimedOnlyAt(t, owner.token, owner.slot)
    ensures Unclaimed(Step(c, t, Complete(owner, body, OK, now)).0, owner.token)
    ensures Unclaimed(Step(c, t, Release(owner)).0, owner.token)
  {
  }

  /** What one non-streaming request does to the table once its claim is granted. */
  ghost function AfterClaim(owner: Reservation, others: seq<Event>, routed: Routed, now: real): seq<Event> {
    match routed
    case Answer(body) => others + [Complete(owner, body, OK, now)]
    case RouteRaises => others + [Release(owner)]
    case StoreRaises(_) => others + [Release(owner)]
    case RaisesAfterStore(body) => others + [Complete(owner, body, OK, now), Release(owner)]
  }

  lemma {:induction false} FinalAppend(c: Config, t: Table, es: seq<Event>, more: seq<Event>)
    ensures Final(c, t, es + more) == Final(c, Final(c, t, es), more)
    decreases |es|
  {
    if es == [] {
      assert es + more == more;
    } else {
      assert (es + more)[1..] == es[1..] + more;
      FinalAppend(c, Step(c, t, es[0]).0, es[1..], more);
    }
  }

  /** Every row of the table was there before. */
  ghost predicate AddsNothing(after: Table, before: Table) {
    forall s <- after :: s in before && after[s] == before[s]
  }

  /** The claim was not taken over: its own row still stands, or nobody holds the slot. */
  ghost predicate Untaken(t: Table, slot: Slot, token: string, now: real) {
    slot !in t || t[slot].expiresAt <= now || (t[slot].Pending() && t[slot].body == token)
  }

  /** Completing an untaken claim stores the answer with status 200; releasing afterwards leaves it. */
  lemma UntakenIsStored(c: Config, t: Table, owner: Reservation, body: string, now: real)
    requires Untaken(t, owner.slot, owner.token, now)
    ensures var stored := Step(c, t, Complete(owner, body, OK, now)).0;
            && owner.slot in stored && stored[owner.slot] == Row(body, 200, now, now + c.ttl)
            && Step(c, stored, Release(owner)).0 == stored
  {
  }

  /** During the lease nobody else can take the claim over. */
  lemma LeaseKeepsClaim(c: Config, t: Table, slot: Slot, token: string, lease: real, claimedAt: real,
                        others: seq<Event>, now: real)
    requires slot.key != "" && slot.tenant != "" && lease > 0.0 && Live(t, slot, claimedAt).None?
    requires AllForeign(others, token) && forall i | 0 <= i < |others| :: Before(others[i], claimedAt + lease)
    ensures Untaken(Final(c, t, [Reserve(slot, token, lease, claimedAt)] + others), slot, token, now)
  {
    var claim, owner := Reserve(slot, token, lease, claimedAt), Reservation(slot, token);
    assert ([claim] + others)[1..] == others;
    forall i | 0 <= i < |others| ensures !ByOwner(others[i], owner) && Before(others[i], claimedAt + lease) {
      assert Foreign(others[i], token);
    }
    ClaimIsExclusive(c, Step(c, t, claim).0, others, owner, claimedAt + lease);
  }

  /** What the world decides about one request: its token and samples, the steps of others during it, its outcome. */
  datatype Request = Request(token: string, claimedAt: real, others: seq<Event>, routed: Routed, storedAt: real)

  /** Two requests with fresh, different tokens, and steps of yet others between them. */
  ghost predicate Separate(t: Table, first: Request, between: seq<Event>, second: Request) {
    && first.token != second.token && Unclaimed(t, first.token) && Unclaimed(t, second.token)
    && AllForeign(first.others, first.token) && AllForeign(first.others, second.token)
    && AllForeign(between, second.token) && AllForeign(second.others, second.token)
  }

  /** Routed to an answer, with every step of others sampled before the lease ends. */
  ghost predicate AnsweredInTime(r: Request, lease: real) {
    r.routed.Answer? && forall i | 0 <= i < |r.others| :: Before(r.others[i], r.claimedAt + lease)
  }

  ghost predicate BeforeExpiry(between: seq<Event>, second: Request, expiry: real) {
    second.claimedAt < expiry && forall i | 0 <= i < |between| :: Before(between[i], expiry)
  }

  /** The second request's token stays unused through the first request and the steps between. */
  lemma SecondStaysUnclaimed(c: Config, t: Table, slot: Slot, lease: real, first: Request, between: seq<Event>,
                             second: Request)
    requires Separate(t, first, between, second) && first.routed.Answer?
    ensures var owner := Reservation(slot, first.token);
            var steps := [Reserve(slot, first.token, lease, first.claimedAt)]
                         + AfterClaim(owner, first.others, first.routed, first.storedAt);
            Unclaimed(Final(c, Final(c, t, steps), between), second.token)
  {
    var owner := Reservation(slot, first.token);
    var rest := AfterClaim(owner, first.others, first.routed, first.storedAt);
    var steps := [Reserve(slot, first.token, lease, first.claimedAt)] + rest;
    forall i | 0 <= i < |steps| ensures Foreign(steps[i], second.token) {
      if 0 < i <= |first.others| {
        assert steps[i] == first.others[i - 1];
      }
    }
    ForeignersNeverClaim(c, t, steps, second.token, slot);
    ForeignersNeverClaim(c, Final(c, t, steps), between, second.token, slot);
  }

  lemma AnswerOutlives(c: Config, t: Table, slot: Slot, first: Request, between: seq<Event>)
    requires first.routed.Answer? && slot in t
    requires t[slot] == Row(first.routed.body, 200, first.storedAt, first.storedAt + c.ttl)
    requires forall i | 0 <= i < |between| :: Before(between[i], first.storedAt + c.ttl)
    ensures slot in Final(c, t, between) && Final(c, t, between)[slot] == t[slot]
  {
    AnswerIsStable(c, t, between, slot, t[slot]);
  }

  lemma FinalAppendOne(c: Config, t: Table, es: seq<Event>, e: Event)
    ensures Final(c, t, es + [e]) == Step(c, Final(c, t, es), e).0
  {
    FinalAppend(c, t, es, [e]);
    assert [e][1..] == [];
  }

  class Gateway {
    const store: IdempotencyStore
    const lease: Lease

    constructor (store: IdempotencyStore, lease: Lease)
      ensures this.store == store && this.lease == lease
    {
      this.store, this.lease := store, lease;
    }

    /** Steps of other requests that fall inside this one. */
    method Meanwhile(others: seq<Event>)
      modifies store
      ensures store.rows == Final(store.config, old(store.rows), others)
    {
      ghost var start := store.rows;
      for i := 0 to |others|
        invariant store.rows == Final(store.config, start, others[..i])
      {
        FinalAppend(store.config, start, others[..i], [others[i]]);
        assert others[..i + 1] == others[..i] + [others[i]];
        var _ := store.Apply(others[i]);
      }
      assert others[..|others|] == others;
    }

    /** The guarded region shared by both handlers: route, store the answer, release on any exception. */
    method RouteAndStore(owner: Reservation, others: seq<Event>, routed: Routed, now: real) returns (reply: Reply)
      requires ClaimedOnlyAt(store.rows, owner.token, owner.slot) && AllForeign(others, owner.token)
      modifies store
      ensures reply == if routed.Answer? then Answered(routed.body) else Failed
      ensures store.rows == Final(store.config, old(store.rows), AfterClaim(owner, others, routed, now))
      ensures Unclaimed(store.rows, owner.token)
      ensures (routed.Answer? || routed.RaisesAfterStore?)
              && Untaken(Final(store.config, old(store.rows), others), owner.slot, owner.token, now) ==>
                owner.slot in store.rows
                && store.rows[owner.slot] == Row(routed.body, 200, now, now + store.config.ttl)
      ensures routed.RouteRaises? || routed.StoreRaises? ==>
                AddsNothing(store.rows, Final(store.config, old(store.rows), others))
    {
      ghost var c, start := store.config, store.rows;
      ForeignersNeverClaim(c, start, others, owner.token, owner.slot);
      Meanwhile(others);
      ghost var mid := store.rows;
      if routed.Answer? || routed.RaisesAfterStore? {
        EndingClearsClaim(c, mid, owner, routed.body, now);
        if Untaken(mid, owner.slot, owner.token, now) {
          UntakenIsStored(c, mid, owner, routed.body, now);
        }
        FinalAppendOne(c, start, others, Complete(owner, routed.body, OK, now));
        var _ := store.Complete(owner, routed.body, OK, now);
      }
      if routed.Answer? {
        return Answered(routed.body);
      }
      EndingClearsClaim(c, store.rows, owner, "", now);
      if routed.RaisesAfterStore? {
        var stored := Complete(owner, routed.body, OK, now);
        FinalAppendOne(c, start, others + [stored], Release(owner));
        assert others + [stored] + [Release(owner)] == others + [stored, Release(owner)];
      } else {
        FinalAppendOne(c, start, others, Release(owner));
      }
      var _ := store.Release(owner);
      reply := Failed;
    }

    /**
      * POST /v1/chat/completions after admission. An empty key means no Idempotency-Key header.
      * A stream only looks a stored response up; every other keyed request claims its key first.
      */
    method ChatCompletions(key: string, tenant: string, stream: bool, token: string, claimedAt: real,
                           others: seq<Event>, routed: Routed, storedAt: real)
      returns (reply: Reply, dispatched: bool)
      requires tenant != "" && Unclaimed(store.rows, token) && AllForeign(others, token)
      modifies store
      ensures Unclaimed(store.rows, token)
      ensures var slot := Slot(key, tenant);
              var seen := Live(old(store.rows), slot, claimedAt);
              var answered := key != "" && seen.Some? && !seen.value.Pending();
              var claimed := key != "" && !stream && seen.Some? && seen.value.Pending();
              && (answered ==> reply == Replayed(seen.value.body, seen.value.status))
              && (claimed ==> reply == Conflict)
              && (!answered && !claimed ==>
                    reply == if stream then Streaming else if routed.Answer? then Answered(routed.body) else Failed)
              && (dispatched <==> !answered && !claimed)
              && store.rows == Final(store.config, old(store.rows),
                   if key == "" then others
                   else if stream then [Get(slot, claimedAt)] + if dispatched then others else []
                   else [Reserve(slot, token, lease, claimedAt)]
                        + if dispatched then AfterClaim(Reservation(slot, token), others, routed, storedAt) else [])
              && (key != "" && !stream && dispatched && (routed.Answer? || routed.RaisesAfterStore?)
                  && Untaken(Final(store.config, old(store.rows), [Reserve(slot, token, lease, claimedAt)] + others),
                             slot, token, storedAt) ==>
                    slot in store.rows
                    && store.rows[slot] == Row(routed.body, 200, storedAt, storedAt + store.config.ttl))
              && (key != "" && !stream && dispatched && (routed.RouteRaises? || routed.StoreRaises?) ==>
                    AddsNothing(store.rows, Final(store.config, old(store.rows),
                                                  [Reserve(slot, token, lease, claimedAt)] + others)))
    {
      dispatched := false;
      var slot := Slot(key, tenant);
      ghost var c, start := store.config, store.rows;
      ForeignersNeverClaim(c, start, others, token, slot);
      if key != "" && stream {
        var existing := store.Get(slot, claimedAt);
        if existing.Found? {
          return Replayed(existing.row.body, existing.row.status), false;
        }
      } else if key != "" {
        var claim := store.Reserve(slot, token, lease, claimedAt);
        if claim.InUse? {
          return Conflict, false;
        }
        if claim.Found? {
          return Replayed(claim.row.body, claim.row.status), false;
        }
        dispatched := true;
        assert ([Reserve(slot, token, lease, claimedAt)] + others)[1..] == others;
        reply := RouteAndStore(claim.reservation, others, routed, storedAt);
        assert ([Reserve(slot, token, lease, claimedAt)]
                + AfterClaim(claim.reservation, others, routed, storedAt))[1..]
            == AfterClaim(claim.reservation, others, routed, storedAt);
        return;
      }
      dispatched := true;
      ForeignersNeverClaim(c, store.rows, others, token, slot);
      Meanwhile(others);
      reply := if stream then Streaming else if routed.Answer? then Answered(routed.body) else Failed;
    }

    /** POST /v1/responses after admission: the key is scoped, and a stream ignores it. */
    method CreateResponse(key: string, tenant: string, stream: bool, token: string, claimedAt: real,
                          others: seq<Event>, routed: Routed, storedAt: real)
      returns (reply: Reply, dispatched: bool)
      requires tenant != "" && Unclaimed(store.rows, token) && AllForeign(others, token)
      modifies store
      ensures Unclaimed(store.rows, token)
      ensures var slot := Slot(key + "\n/v1/responses", tenant);
              var seen := Live(old(store.rows), slot, claimedAt);
              && (key != "" && !stream && seen.Some? ==>
                    && !dispatched
                    && (reply == if seen.value.Pending() then Conflict
                                 else Replayed(seen.value.body, seen.value.status))
                    && store.rows == Final(store.config, old(store.rows), [Reserve(slot, token, lease, claimedAt)]))
              && (key != "" && !stream && seen.None? ==>
                    && dispatched && reply == (if routed.Answer? then Answered(routed.body) else Failed)
                    && store.rows == Final(store.config, old(store.rows),
                         [Reserve(slot, token, lease, claimedAt)]
                         + AfterClaim(Reservation(slot, token), others, routed, storedAt)))
              && (key == "" || stream ==>
                    && dispatched && store.rows == Final(store.config, old(store.rows), others)
                    && reply == if stream then Streaming else if routed.Answer? then Answered(routed.body) else Failed)
              && (key != "" && !stream && dispatched && (routed.Answer? || routed.RaisesAfterStore?)
                  && Untaken(Final(store.config, old(store.rows), [Reserve(slot, token, lease, claimedAt)] + others),
                             slot, token, storedAt) ==>
                    slot in store.rows
                    && store.rows[slot] == Row(routed.body, 200, storedAt, storedAt + store.config.ttl))
              && (key != "" && !stream && dispatched && (routed.RouteRaises? || routed.StoreRaises?) ==>
                    AddsNothing(store.rows, Final(store.config, old(store.rows),
                                                  [Reserve(slot, token, lease, claimedAt)] + others)))
    {
      dispatched := false;
      var slot := Slot(key + RESPONSES_SUFFIX, tenant);
      ForeignersNeverClaim(store.config, store.rows, others, token, slot);
      if key != "" && !stream {
        var claim := store.Reserve(slot, token, lease, claimedAt);
        if claim.InUse? {
          return Conflict, false;
        }
        if claim.Found? {
          return Replayed(claim.row.body, claim.row.status), false;
        }
        dispatched := true;
        assert ([Reserve(slot, token, lease, claimedAt)] + others)[1..] == others;
        reply := RouteAndStore(claim.reservation, others, routed, storedAt);
        assert ([Reserve(slot, token, lease, claimedAt)]
                + AfterClaim(claim.reservation, others, routed, storedAt))[1..]
            == AfterClaim(claim.reservation, others, routed, storedAt);
        return;
      }
      dispatched := true;
      Meanwhile(others);
      reply := if stream then Streaming else if routed.Answer? then Answered(routed.body) else Failed;
    }

    /**
      * A keyed chat request that is answered within its lease, and a second one with the same key before the
      * answer expires: the second replays the first's answer and routes nothing, whatever others do in between.
      */
    method ChatTwice(key: string, tenant: string, first: Request, between: seq<Event>, stream: bool, second: Request)
      returns (reply: Reply, dispatched: bool)
      requires key != "" && tenant != "" && Live(store.rows, Slot(key, tenant), first.claimedAt).None?
      requires Separate(store.rows, first, between, second)
      requires AnsweredInTime(first, lease) && BeforeExpiry(between, second, first.storedAt + store.config.ttl)
      modifies store
      ensures reply == Replayed(first.routed.body, 200) && !dispatched
    {
      var slot := Slot(key, tenant);
      ghost var c, start := store.config, store.rows;
      LeaseKeepsClaim(c, start, slot, first.token, lease, first.claimedAt, first.others, first.storedAt);
      SecondStaysUnclaimed(c, start, slot, lease, first, between, second);
      var _, _ := ChatCompletions(key, tenant, false, first.token, first.claimedAt, first.others, first.routed,
                                  first.storedAt);
      AnswerOutlives(c, store.rows, slot, first, between);
      Meanwhile(between);
      reply, dispatched := ChatCompletions(key, tenant, stream, second.token, second.claimedAt, second.others,
                                           second.routed, second.storedAt);
    }

    /** The same for the responses endpoint. */
    method ResponsesTwice(key: string, tenant: string, first: Request, between: seq<Event>, second: Request)
      returns (reply: Reply, dispatched: bool)
      requires key != "" && tenant != ""
      requires Live(store.rows, Slot(key + "\n/v1/responses", tenant), first.claimedAt).None?
      requires Separate(store.rows, first, between, second)
      requires AnsweredInTime(first, lease) && BeforeExpiry(between, second, first.storedAt + store.config.ttl)
      modifies store
      ensures reply == Replayed(first.routed.body, 200) && !dispatched
    {
      var slot := Slot(key + RESPONSES_SUFFIX, tenant);
      ghost var c, start := store.config, store.rows;
      LeaseKeepsClaim(c, start, slot, first.token, lease, first.claimedAt, first.others, first.storedAt);
      SecondStaysUnclaimed(c, start, slot, lease, first, between, second);
      var _, _ := CreateResponse(key, tenant, false, first.token, first.claimedAt, first.others, first.routed,
                                 first.storedAt);
      AnswerOutlives(c, store.rows, slot, first, between);
      Meanwhile(between);
      reply, dispatched := CreateResponse(key, tenant, false, second.token, second.claimedAt, second.others,
                                          second.routed, second.storedAt);
    }
  }

  // ------------------------------------------------- two requests, one key

  /** A stored answer is what the next request with the key sees, so the handlers replay it without routing. */
  lemma RetrySeesAnswer(c: Config, t: Table, owner: Reservation, body: string, storedAt: real, es: seq<Event>,
                        now: real)
    requires Step(c, t, Complete(owner, body, OK, storedAt)).1 == Stored(true)
    requires forall i | 0 <= i < |es| :: Before(es[i], storedAt + c.ttl)
    requires now < storedAt + c.ttl
    ensures Live(Final(c, Step(c, t, Complete(owner, body, OK, storedAt)).0, es), owner.slot, now)
         == Some(Row(body, OK, storedAt, storedAt + c.ttl))
  {
    AnswerIsStable(c, Step(c, t, Complete(owner, body, OK, storedAt)).0, es, owner.slot,
                   Row(body, OK, storedAt, storedAt + c.ttl));
  }

  ghost predicate NoGrant(es: seq<Event>, rs: seq<Outcome>, slot: Slot)
    requires |es| == |rs|
  {
    forall i | 0 <= i < |es| :: es[i].Reserve? && es[i].slot == slot ==> !rs[i].Granted?
  }

  lemma NoGrantWhileClaimed(c: Config, t: Table, es: seq<Event>, owner: Reservation, until: real)
    requires Holds(t, owner, until) && Bystanders(es, owner, until)
    ensures NoGrant(es, Outcomes(c, t, es), owner.slot)
    ensures Holds(Final(c, t, es), owner, until)
  {
    ClaimIsExclusive(c, t, es, owner, until);
    forall i | 0 <= i < |es| && es[i].Reserve? && es[i].slot == owner.slot ensures !Outcomes(c, t, es)[i].Granted? {
      assert ShutOut(es[i], Outcomes(c, t, es)[i], owner.slot);
    }
  }

  lemma NoGrantWhileAnswered(c: Config, t: Table, es: seq<Event>, s: Slot, row: Row)
    requires Answers(t, s, row) && forall i | 0 <= i < |es| :: Before(es[i], row.expiresAt)
    ensures NoGrant(es, Outcomes(c, t, es), s)
  {
    AnswerIsStable(c, t, es, s, row);
    forall i | 0 <= i < |es| && es[i].Reserve? && es[i].slot == s ensures !Outcomes(c, t, es)[i].Granted? {
      assert Replays(es[i], Outcomes(c, t, es)[i], s, row);
    }
  }

  /**
    * At most one dispatch: from a grant, through its completion, to the end of the answer's life,
    * no other request is granted the same key.
    */
  lemma AtMostOneDispatch(c: Config, t: Table, claim: Event, during: seq<Event>, body: string, storedAt: real,
                          later: seq<Event>)
    requires claim.Reserve? && Step(c, t, claim).1.Granted?
    requires Bystanders(during, Reservation(claim.slot, claim.token), claim.now + claim.lease)
    requires forall i | 0 <= i < |later| :: Before(later[i], storedAt + c.ttl)
    ensures NoGrant(during, Outcomes(c, Step(c, t, claim).0, during), claim.slot)
    ensures var answered := Step(c, Final(c, Step(c, t, claim).0, during),
                                 Complete(Reservation(claim.slot, claim.token), body, OK, storedAt)).0;
            NoGrant(later, Outcomes(c, answered, later), claim.slot)
  {
    var owner := Reservation(claim.slot, claim.token);
    var t1 := Step(c, t, claim).0;
    NoGrantWhileClaimed(c, t1, during, owner, claim.now + claim.lease);
    var answered := Step(c, Final(c, t1, during), Complete(owner, body, OK, storedAt)).0;
    NoGrantWhileAnswered(c, answered, later, claim.slot, Row(body, OK, storedAt, storedAt + c.ttl));
  }

  /** A header value holds no line break, so a chat key and a scoped responses key never meet. */
  lemma ScopesNeverMeet(chatKey: string, responsesKey: string)
    requires '\n' !in chatKey
    ensures chatKey != responsesKey + RESPONSES_SUFFIX
  {
    assert (responsesKey + RESPONSES_SUFFIX)[|responsesKey|] == '\n';
  }
}
