/**
 * The two request handlers of server/routes.ts: `POST /api/waitlist` and
 * `GET /api/waitlist/count`, over the store of Storage.
 *
 * `insertWaitlistSchema.safeParse` is a parameter: a function from the request
 * body to the parsed insert record, or None when the body fails validation.
 */
module Routes {
  import opened Wrappers
  import opened Schema
  import Storage

  /** What `POST /api/waitlist` answers. */
  datatype JoinResponse =
    | ValidationError
    | Conflict
    | Created(entry: WaitlistEntry)
  {
    function Status(): int {
      match this
      case ValidationError => 400
      case Conflict => 409
      case Created(_) => 201
    }

    function Message(): string {
      match this
      case ValidationError => "Validation error"
      case Conflict => "Email already registered on waitlist"
      case Created(_) => "Successfully added to waitlist"
    }
  }

  /** What `GET /api/waitlist/count` answers. */
  datatype CountResponse = CountResponse(status: int, count: nat)

  /** Some stored entry has exactly this email (case-sensitive). */
  predicate EmailTaken(entries: seq<WaitlistEntry>, email: string) {
    exists i :: 0 <= i < |entries| && entries[i].email == email
  }

  /**
   * The decision `POST /api/waitlist` takes on a store holding `entries` whose
   * next waitlist id is `nextId`: validate, then check the email, then create.
   */
  function JoinOutcome(entries: seq<WaitlistEntry>, nextId: int, parsed: Option<InsertWaitlistEntry>, now: Timestamp)
    : (resp: JoinResponse)
    ensures resp.ValidationError? <==> parsed.None?
    ensures resp.Conflict? <==> parsed.Some? && EmailTaken(entries, parsed.value.email)
    ensures resp.Created? ==>
      resp.entry == WaitlistEntry(nextId, parsed.value.name, parsed.value.email, parsed.value.company, now)
  {
    match parsed
    case None => ValidationError
    case Some(p) =>
      if EmailTaken(entries, p.email) then Conflict
      else Created(WaitlistEntry(nextId, p.name, p.email, p.company, now))
  }

  /** The waitlist after a response: one entry more exactly when the response is 201. */
  function Joined(entries: seq<WaitlistEntry>, resp: JoinResponse): seq<WaitlistEntry> {
    if resp.Created? then entries + [resp.entry] else entries
  }

  /** `POST /api/waitlist`. */
  method PostWaitlist<B>(store: Storage.MemStorage, body: B, safeParse: B -> Option<InsertWaitlistEntry>, now: Timestamp)
    returns (resp: JoinResponse)
    requires store.Valid()
    modifies store`waitlist, store`currentWaitlistId
    ensures store.Valid()
    ensures resp == JoinOutcome(old(store.waitlist), old(store.currentWaitlistId), safeParse(body), now)
    ensures store.waitlist == Joined(old(store.waitlist), resp)
    ensures !resp.Created? ==> store.currentWaitlistId == old(store.currentWaitlistId)
  {
    var result := safeParse(body);
    if result.None? {
      return ValidationError;
    }
    var existingEntry := store.GetWaitlistEntryByEmail(result.value.email);
    if existingEntry.Some? {
      return Conflict;
    }
    var waitlistEntry := store.CreateWaitlistEntry(result.value, now);
    return Created(waitlistEntry);
  }

  /** `GET /api/waitlist/count`: the number of stored entries. */
  method GetWaitlistCount(store: Storage.MemStorage) returns (resp: CountResponse)
    requires store.Valid()
    ensures resp.status == 200 && resp.count == |store.waitlist|
  {
    var entries := store.GetWaitlistEntries();
    return CountResponse(200, |entries|);
  }

  /** One `POST /api/waitlist` request: what safeParse made of its body, and the clock. */
  datatype JoinRequest = JoinRequest(parsed: Option<InsertWaitlistEntry>, now: Timestamp)

  /**
   * The waitlist after serving `reqs` in order, starting from `entries`; the
   * store's invariant makes the next id `|entries| + 1` at every step.
   */
  function Replay(entries: seq<WaitlistEntry>, reqs: seq<JoinRequest>): seq<WaitlistEntry>
    decreases |reqs|
  {
    if reqs == [] then entries
    else
      var resp := JoinOutcome(entries, |entries| + 1, reqs[0].parsed, reqs[0].now);
      Replay(Joined(entries, resp), reqs[1..])
  }

  /** Every request is valid, and no two requests, nor a request and a stored entry, share an email. */
  ghost predicate FreshDistinctJoins(entries: seq<WaitlistEntry>, reqs: seq<JoinRequest>) {
    && (forall k :: 0 <= k < |reqs| ==> reqs[k].parsed.Some? && !EmailTaken(entries, reqs[k].parsed.value.email))
    && (forall k, l :: 0 <= k < l < |reqs| ==> reqs[k].parsed.value.email != reqs[l].parsed.value.email)
  }

  /** n valid joins with fresh, distinct emails add exactly n entries. */
  lemma {:induction false} DistinctJoinsCount(entries: seq<WaitlistEntry>, reqs: seq<JoinRequest>)
    requires FreshDistinctJoins(entries, reqs)
    ensures |Replay(entries, reqs)| == |entries| + |reqs|
    decreases |reqs|
  {
    if reqs != [] {
      var resp := JoinOutcome(entries, |entries| + 1, reqs[0].parsed, reqs[0].now);
      var next := Joined(entries, resp);
      assert resp.Created? && next == entries + [resp.entry];
      forall k | 0 <= k < |reqs[1..]| ensures !EmailTaken(next, reqs[1..][k].parsed.value.email) {
        assert reqs[1..][k] == reqs[k + 1];
        forall i | 0 <= i < |next| ensures next[i].email != reqs[k + 1].parsed.value.email {
          if i < |entries| {
            assert next[i] == entries[i];
          }
        }
      }
      assert FreshDistinctJoins(next, reqs[1..]) by {
        forall k, l | 0 <= k < l < |reqs[1..]|
          ensures reqs[1..][k].parsed.value.email != reqs[1..][l].parsed.value.email
        {
          assert reqs[1..][k] == reqs[k + 1] && reqs[1..][l] == reqs[l + 1];
        }
      }
      DistinctJoinsCount(next, reqs[1..]);
    }
  }

  /** The requests a sequence of bodies makes, each parsed by `safeParse`, with its arrival time. */
  function Requests<B>(bodies: seq<B>, safeParse: B -> Option<InsertWaitlistEntry>, nows: seq<Timestamp>)
    : (reqs: seq<JoinRequest>)
    requires |nows| == |bodies|
    ensures |reqs| == |bodies|
    ensures forall k :: 0 <= k < |reqs| ==> reqs[k] == JoinRequest(safeParse(bodies[k]), nows[k])
  {
    seq(|bodies|, k requires 0 <= k < |bodies| => JoinRequest(safeParse(bodies[k]), nows[k]))
  }

  /**
   * Serves `POST /api/waitlist` for each body in turn, then `GET /api/waitlist/count`:
   * the store ends with the replayed waitlist, and when the joins are valid with
   * fresh, distinct emails the count grows by exactly the number of bodies.
   */
  method ServeJoins<B>(store: Storage.MemStorage, bodies: seq<B>, safeParse: B -> Option<InsertWaitlistEntry>,
                       nows: seq<Timestamp>)
    returns (resp: CountResponse)
    requires store.Valid() && |nows| == |bodies|
    modifies store`waitlist, store`currentWaitlistId
    ensures store.Valid()
    ensures store.waitlist == Replay(old(store.waitlist), Requests(bodies, safeParse, nows))
    ensures resp.status == 200 && resp.count == |store.waitlist|
    ensures FreshDistinctJoins(old(store.waitlist), Requests(bodies, safeParse, nows)) ==>
      resp.count == |old(store.waitlist)| + |bodies|
  {
    var reqs := Requests(bodies, safeParse, nows);
    for k := 0 to |bodies|
      invariant store.Valid()
      invariant Replay(old(store.waitlist), reqs) == Replay(store.waitlist, reqs[k..])
    {
      assert reqs[k..][1..] == reqs[k + 1..];
      var _ := PostWaitlist(store, bodies[k], safeParse, nows[k]);
    }
    assert reqs[|bodies|..] == [];
    resp := GetWaitlistCount(store);
    if FreshDistinctJoins(old(store.waitlist), reqs) {
      DistinctJoinsCount(old(store.waitlist), reqs);
    }
  }

  /** From an empty waitlist, n valid joins with distinct emails give a count of n. */
  lemma CountFromEmpty(reqs: seq<JoinRequest>)
    requires forall k :: 0 <= k < |reqs| ==> reqs[k].parsed.Some?
    requires forall k, l :: 0 <= k < l < |reqs| ==> reqs[k].parsed.value.email != reqs[l].parsed.value.email
    ensures |Replay([], reqs)| == |reqs|
  {
    DistinctJoinsCount([], reqs);
  }

  /** A join whose email is already on the waitlist answers 409 and adds nothing. */
  lemma RepeatedEmailAddsNothing(entries: seq<WaitlistEntry>, p: InsertWaitlistEntry, now: Timestamp)
    requires EmailTaken(entries, p.email)
    ensures JoinOutcome(entries, |entries| + 1, Some(p), now).Status() == 409
    ensures Joined(entries, JoinOutcome(entries, |entries| + 1, Some(p), now)) == entries
  {
  }

  /** Serving requests never shrinks the waitlist and grows it by at most one per request. */
  lemma {:induction false} ReplayBounds(entries: seq<WaitlistEntry>, reqs: seq<JoinRequest>)
    ensures |entries| <= |Replay(entries, reqs)| <= |entries| + |reqs|
    decreases |reqs|
  {
    if reqs != [] {
      var resp := JoinOutcome(entries, |entries| + 1, reqs[0].parsed, reqs[0].now);
      ReplayBounds(Joined(entries, resp), reqs[1..]);
    }
  }

  /** No two entries share an email. */
  ghost predicate EmailsUnique(entries: seq<WaitlistEntry>) {
    forall i, j :: 0 <= i < j < |entries| ==> entries[i].email != entries[j].email
  }

  /** The duplicate check keeps waitlist emails unique, whatever requests arrive. */
  lemma {:induction false} ReplayKeepsEmailsUnique(entries: seq<WaitlistEntry>, reqs: seq<JoinRequest>)
    requires EmailsUnique(entries)
    ensures EmailsUnique(Replay(entries, reqs))
    decreases |reqs|
  {
    if reqs != [] {
      var resp := JoinOutcome(entries, |entries| + 1, reqs[0].parsed, reqs[0].now);
      var next := Joined(entries, resp);
      if resp.Created? {
        forall i, j | 0 <= i < j < |next| ensures next[i].email != next[j].email {
          if j == |entries| {
            assert next[i] == entries[i];
            assert !EmailTaken(entries, resp.entry.email);
          } else {
            assert next[i] == entries[i] && next[j] == entries[j];
          }
        }
      }
      ReplayKeepsEmailsUnique(next, reqs[1..]);
    }
  }

  /** The duplicate check is case-sensitive: an email differing only in case is accepted. */
  lemma CaseSensitiveDuplicateCheck(now: Timestamp)
    ensures var stored := [WaitlistEntry(1, "Asha", "asha@x.com", None, now)];
      JoinOutcome(stored, 2, Some(InsertWaitlistEntry("Asha", "Asha@x.com", None)), now).Created?
  {
    var stored := [WaitlistEntry(1, "Asha", "asha@x.com", None, now)];
    assert "asha@x.com"[0] != "Asha@x.com"[0];
    assert !EmailTaken(stored, "Asha@x.com");
  }
}
