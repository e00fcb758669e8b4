/**
 Privileged grants: the validity check, and the replay set of consumed grants
 as a plain map from grant id to expiry. The signature check is an input.
 Sources: crates/centrald-common/src/grant.rs, crates/centrald-platform/src/broker.rs
 */
module Grants {
  import opened Wrappers
  import opened LedgerRecords

  type GrantId = nat
  type DeviceId = nat

  const MAX_GRANT_LIFETIME_SECONDS: int := 1800
  const MAX_REPLAY_ENTRIES: int := 4096

  datatype Signature = Malformed | Forged | Genuine

  datatype Grant = Grant(
    id: GrantId,
    device: DeviceId,
    job: JobId,
    operation: Operation,
    issuedAt: Time,
    expiresAt: Time,
    signature: Signature)

  datatype GrantError =
    | WrongDevice
    | LifetimeTooLong
    | OutsideValidity
    | SignatureEncoding
    | InvalidSignature
    | Replay
    | ReplaySetFull

  /** Whole seconds of a duration, rounded toward zero. */
  function WholeSeconds(d: int): int {
    if d >= 0 then d / SECOND else -((-d) / SECOND)
  }

  /** The checks of a signed grant, in the order in which they are reported. */
  function Verify(g: Grant, device: DeviceId, now: Time): Result<(), GrantError> {
    var lifetime := WholeSeconds(g.expiresAt - g.issuedAt);
    if g.device != device then Err(WrongDevice)
    else if lifetime <= 0 || lifetime > MAX_GRANT_LIFETIME_SECONDS then Err(LifetimeTooLong)
    else if now < g.issuedAt || now > g.expiresAt then Err(OutsideValidity)
    else if g.signature.Malformed? then Err(SignatureEncoding)
    else if g.signature.Forged? then Err(InvalidSignature)
    else Ok(())
  }

  /**
   A grant passes exactly when it is genuine, for this device, its lifetime is
   at least one second and less than 1801 seconds, and the reading is in its
   window, both ends included.
   */
  lemma VerifyWindow(g: Grant, device: DeviceId, now: Time)
    ensures Verify(g, device, now).Ok? <==>
            && g.signature.Genuine? && g.device == device
            && SECOND <= g.expiresAt - g.issuedAt < (MAX_GRANT_LIFETIME_SECONDS + 1) * SECOND
            && g.issuedAt <= now <= g.expiresAt
  {
    var d := g.expiresAt - g.issuedAt;
    if d >= 0 {
      assert d == SECOND * (d / SECOND) + d % SECOND;
    }
  }

  type ReplaySet = map<GrantId, Time>

  /** The entries that have not expired at `now`. */
  function Live(m: ReplaySet, now: Time): ReplaySet {
    map id | id in m && m[id] > now :: m[id]
  }

  function Consume(m: ReplaySet, g: Grant, device: DeviceId, now: Time): (Result<(), GrantError>, ReplaySet) {
    match Verify(g, device, now)
    case Err(e) => (Err(e), m)
    case Ok(_) =>
      var live := Live(m, now);
      if g.id in live then (Err(Replay), live)
      else if |live| >= MAX_REPLAY_ENTRIES then (Err(ReplaySetFull), live)
      else (Ok(()), live[g.id := g.expiresAt])
  }

  function Restore(m: ReplaySet, id: GrantId, expiresAt: Time, now: Time): ReplaySet {
    if expiresAt <= now || id in m then m else m[id := expiresAt]
  }

  datatype Consumed = Consumed(id: GrantId, expiresAt: Time)

  /** The journal lines that a load at `now` returns. */
  function LoadConsumed(journal: seq<Consumed>, now: Time): (out: seq<Consumed>)
    ensures forall c :: c in out <==> c in journal && c.expiresAt > now
  {
    if journal == [] then []
    else
      var rest := LoadConsumed(journal[..|journal| - 1], now);
      var last := journal[|journal| - 1];
      if last.expiresAt > now then rest + [last] else rest
  }

  /** In journal order: loading one part after the other is loading the whole. */
  lemma {:induction false} LoadsInOrder(a: seq<Consumed>, b: seq<Consumed>, now: Time)
    ensures LoadConsumed(a + b, now) == LoadConsumed(a, now) + LoadConsumed(b, now)
  {
    if b == [] {
      assert a + b == a;
    } else {
      var n := |b| - 1;
      assert (a + b)[..|a + b| - 1] == a + b[..n];
      LoadsInOrder(a, b[..n], now);
    }
  }

  function RestoreAll(m: ReplaySet, entries: seq<Consumed>, now: Time): ReplaySet {
    if entries == [] then m
    else
      var last := entries[|entries| - 1];
      Restore(RestoreAll(m, entries[..|entries| - 1], now), last.id, last.expiresAt, now)
  }

  /** The replay set of a broker that starts at `now`. */
  function Boot(journal: seq<Consumed>, now: Time): ReplaySet {
    RestoreAll(map[], LoadConsumed(journal, now), now)
  }

  lemma {:induction false} RestoreAllHolds(m: ReplaySet, entries: seq<Consumed>, now: Time)
    ensures var r := RestoreAll(m, entries, now);
            && (forall c :: c in entries && c.expiresAt > now ==> c.id in r)
            && (forall id :: id in m ==> id in r && r[id] == m[id])
            && (forall id :: id in r && id !in m ==> r[id] > now && Consumed(id, r[id]) in entries)
  {
    if entries != [] {
      var init := entries[..|entries| - 1];
      RestoreAllHolds(m, init, now);
      forall c | c in entries ensures c in init || c == entries[|entries| - 1] {
      }
    }
  }

  /** A fresh broker holds exactly the ids of the journal's unexpired lines. */
  lemma BootHolds(journal: seq<Consumed>, now: Time)
    ensures var r := Boot(journal, now);
            && (forall id :: id in r <==> exists c :: c in journal && c.id == id && c.expiresAt > now)
            && (forall id :: id in r ==> r[id] > now && Consumed(id, r[id]) in journal)
  {
    var entries := LoadConsumed(journal, now);
    RestoreAllHolds(map[], entries, now);
    var r := Boot(journal, now);
    forall id | exists c :: c in journal && c.id == id && c.expiresAt > now ensures id in r {
      var c :| c in journal && c.id == id && c.expiresAt > now;
      assert c in entries;
    }
    forall id | id in r ensures exists c :: c in journal && c.id == id && c.expiresAt > now {
      assert Consumed(id, r[id]) in journal;
    }
  }

  // ---- Replay protection of one running verifier ------------------------

  /** One call of the verifier: a grant and the clock reading passed with it. */
  datatype Attempt = Attempt(grant: Grant, now: Time)

  function ConsumeAll(m: ReplaySet, attempts: seq<Attempt>, device: DeviceId): ReplaySet {
    if attempts == [] then m
    else
      var last := attempts[|attempts| - 1];
      Consume(ConsumeAll(m, attempts[..|attempts| - 1], device), last.grant, device, last.now).1
  }

  function OutcomeOf(m: ReplaySet, attempts: seq<Attempt>, device: DeviceId, k: nat): Result<(), GrantError>
    requires k < |attempts|
  {
    Consume(ConsumeAll(m, attempts[..k], device), attempts[k].grant, device, attempts[k].now).0
  }

  /** Which attempts are accepted and so consume grant `id`. */
  function Acceptances(m: ReplaySet, attempts: seq<Attempt>, device: DeviceId, id: GrantId): (accepted: seq<bool>)
    ensures |accepted| == |attempts|
  {
    if attempts == [] then []
    else
      var n := |attempts| - 1;
      Acceptances(m, attempts[..n], device, id) + [attempts[n].grant.id == id && OutcomeOf(m, attempts, device, n).Ok?]
  }

  lemma {:induction false} AcceptancesAre(m: ReplaySet, attempts: seq<Attempt>, device: DeviceId, id: GrantId, k: nat)
    requires k < |attempts|
    ensures Acceptances(m, attempts, device, id)[k] <==>
        attempts[k].grant.id == id && OutcomeOf(m, attempts, device, k).Ok?
  {
    var n := |attempts| - 1;
    if k < n {
      AcceptancesAre(m, attempts[..n], device, id, k);
      assert attempts[..n][..k] == attempts[..k];
    }
  }

  /** Attempt `k` carries a valid grant at a reading from `expiresAt` on, so it prunes entries expiring then. */
  predicate Prunes(attempts: seq<Attempt>, device: DeviceId, k: nat, expiresAt: Time)
    requires k < |attempts|
  {
    attempts[k].now >= expiresAt && Verify(attempts[k].grant, device, attempts[k].now).Ok?
  }

  /** Where an entry came from: it was there at the start, or attempt `at` consumed the grant. */
  datatype Origin = Start | ByAttempt(at: nat)

  function FirstAfter(o: Origin): nat {
    match o
    case Start => 0
    case ByAttempt(at) => at + 1
  }

  predicate IsOrigin(start: Option<Time>, accepted: seq<bool>, o: Origin) {
    match o
    case Start => start.Some?
    case ByAttempt(at) => at < |accepted| && accepted[at]
  }

  function ExpiryFrom(start: Option<Time>, accepted: seq<bool>, attempts: seq<Attempt>, o: Origin): Time
    requires |accepted| == |attempts| && IsOrigin(start, accepted, o)
  {
    match o
    case Start => start.value
    case ByAttempt(at) => attempts[at].grant.expiresAt
  }

  /** The entry from `o` is still there: no attempt since has consumed the grant or pruned the entry. */
  predicate EntryHolds(start: Option<Time>, accepted: seq<bool>, attempts: seq<Attempt>, device: DeviceId, o: Origin)
    requires |accepted| == |attempts|
  {
    && IsOrigin(start, accepted, o)
    && forall p | FirstAfter(o) <= p < |attempts| ::
         !accepted[p] && !Prunes(attempts, device, p, ExpiryFrom(start, accepted, attempts, o))
  }

  /** The entry from `o` is still there, and `e` is its expiry. */
  predicate HeldUntil(start: Option<Time>, accepted: seq<bool>, attempts: seq<Attempt>, device: DeviceId, o: Origin,
      e: Time)
    requires |accepted| == |attempts|
  {
    EntryHolds(start, accepted, attempts, device, o) && ExpiryFrom(start, accepted, attempts, o) == e
  }

  function EntryOf(m: ReplaySet, id: GrantId): Option<Time> {
    if id in m then Some(m[id]) else None
  }

  /** An entry that comes from earlier than the last attempt. */
  lemma HoldsBefore(start: Option<Time>, accepted: seq<bool>, attempts: seq<Attempt>, device: DeviceId, o: Origin)
    requires |accepted| == |attempts| > 0 && FirstAfter(o) < |attempts|
    ensures var n := |attempts| - 1;
      EntryHolds(start, accepted, attempts, device, o) <==>
        && EntryHolds(start, accepted[..n], attempts[..n], device, o)
        && !accepted[n]
        && !Prunes(attempts, device, n, ExpiryFrom(start, accepted[..n], attempts[..n], o))
  {
    var n := |attempts| - 1;
    if EntryHolds(start, accepted, attempts, device, o) {
      var e := ExpiryFrom(start, accepted, attempts, o);
      assert !accepted[n] && !Prunes(attempts, device, n, e);
      forall p | FirstAfter(o) <= p < n ensures !accepted[..n][p] && !Prunes(attempts[..n], device, p, e) {
        assert !accepted[p] && !Prunes(attempts, device, p, e);
      }
    }
    if EntryHolds(start, accepted[..n], attempts[..n], device, o) {
      var e := ExpiryFrom(start, accepted[..n], attempts[..n], o);
      forall p | FirstAfter(o) <= p < n ensures !accepted[p] && !Prunes(attempts, device, p, e) {
        assert !accepted[..n][p] && !Prunes(attempts[..n], device, p, e);
      }
    }
  }

  /** What one attempt does to the entry of a grant. */
  lemma EntryStep(m: ReplaySet, a: Attempt, device: DeviceId, id: GrantId)
    ensures var (r, m') := Consume(m, a.grant, device, a.now);
      EntryOf(m', id) ==
        if a.grant.id == id && r.Ok? then Some(a.grant.expiresAt)
        else if id in m && a.now >= m[id] && Verify(a.grant, device, a.now).Ok? then None
        else EntryOf(m, id)
  {
  }

  /** An entry that no attempt prunes stays, and its grant is not consumed again. */
  lemma {:induction false} EntryStays(m: ReplaySet, attempts: seq<Attempt>, device: DeviceId, id: GrantId)
    requires id in m && forall k | 0 <= k < |attempts| :: !Prunes(attempts, device, k, m[id])
    ensures EntryOf(ConsumeAll(m, attempts, device), id) == Some(m[id])
  {
    if attempts != [] {
      var n := |attempts| - 1;
      forall k | 0 <= k < n ensures !Prunes(attempts[..n], device, k, m[id]) {
        assert !Prunes(attempts, device, k, m[id]);
      }
      EntryStays(m, attempts[..n], device, id);
      EntryStep(ConsumeAll(m, attempts[..n], device), attempts[n], device, id);
      assert !Prunes(attempts, device, n, m[id]);
    }
  }

  /** The entry of a grant after any attempts: the one from the origin that still holds, and there is one only then. */
  lemma {:induction false} EntryIff(
    m: ReplaySet, attempts: seq<Attempt>, device: DeviceId, id: GrantId, accepted: seq<bool>, start: Option<Time>,
      e: Time)
    requires accepted == Acceptances(m, attempts, device, id) && start == EntryOf(m, id)
    ensures EntryOf(ConsumeAll(m, attempts, device), id) == Some(e) <==>
      exists o :: HeldUntil(start, accepted, attempts, device, o, e)
  {
    if attempts == [] {
      assert start == Some(e) ==> HeldUntil(start, accepted, attempts, device, Start, e);
    } else {
      var n := |attempts| - 1;
      assert accepted[..n] == Acceptances(m, attempts[..n], device, id);
      EntryIff(m, attempts[..n], device, id, accepted[..n], start, e);
      EntryStep(ConsumeAll(m, attempts[..n], device), attempts[n], device, id);
      LastOrigin(start, accepted, attempts, device, e);
    }
  }

  /** Holding after one more attempt: it consumed the grant, or it left the entry alone. */
  lemma LastOrigin(start: Option<Time>, accepted: seq<bool>, attempts: seq<Attempt>, device: DeviceId, e: Time)
    requires |accepted| == |attempts| > 0
    ensures var n := |attempts| - 1;
      (exists o :: HeldUntil(start, accepted, attempts, device, o, e)) <==>
        if accepted[n] then attempts[n].grant.expiresAt == e
        else !Prunes(attempts, device, n, e) && exists o :: HeldUntil(start, accepted[..n], attempts[..n], device, o, e)
  {
    var n := |attempts| - 1;
    forall o | FirstAfter(o) < |attempts|
      ensures HeldUntil(start, accepted, attempts, device, o, e) <==>
        !accepted[n] && !Prunes(attempts, device, n, e) && HeldUntil(start, accepted[..n], attempts[..n], device, o, e)
    {
      HoldsBefore(start, accepted, attempts, device, o);
    }
    if accepted[n] {
      assert attempts[n].grant.expiresAt == e ==> HeldUntil(start, accepted, attempts, device, ByAttempt(n), e);
    }
  }

  /**
   Replay protection within one broker process, exactly and for every list of
   attempts: a valid presentation is answered `Replay` if and only if an entry
   for its id, from the start or from an accepted presentation, holds and
   expires after the reading. An entry holds until a valid attempt reads the
   clock at or past its expiry.
   */
  lemma ReplayAnsweredIff(m: ReplaySet, attempts: seq<Attempt>, device: DeviceId, g: Grant, now: Time)
    requires Verify(g, device, now).Ok?
    ensures Consume(ConsumeAll(m, attempts, device), g, device, now).0 == Err(Replay) <==>
      exists o, e ::
        HeldUntil(EntryOf(m, g.id), Acceptances(m, attempts, device, g.id), attempts, device, o, e) && e > now
  {
    var start, accepted := EntryOf(m, g.id), Acceptances(m, attempts, device, g.id);
    var entry := EntryOf(ConsumeAll(m, attempts, device), g.id);
    if entry.Some? { EntryIff(m, attempts, device, g.id, accepted, start, entry.value); }
    forall o, e | HeldUntil(start, accepted, attempts, device, o, e) ensures entry == Some(e) {
      EntryIff(m, attempts, device, g.id, accepted, start, e);
    }
  }

  /** Acceptance of a held grant before its expiry, exactly; it takes a valid attempt at or past that expiry. */
  lemma AcceptedIff(m: ReplaySet, attempts: seq<Attempt>, device: DeviceId, g: Grant, now: Time, e: Time)
    requires EntryOf(m, g.id) == Some(e) && now < e
    ensures var after := ConsumeAll(m, attempts, device);
      Consume(after, g, device, now).0.Ok? <==>
        && Verify(g, device, now).Ok? && |Live(after, now)| < MAX_REPLAY_ENTRIES
        && !exists o, x :: HeldUntil(Some(e), Acceptances(m, attempts, device, g.id), attempts, device, o, x) && x > now
    ensures Consume(ConsumeAll(m, attempts, device), g, device, now).0.Ok? ==>
      exists p: nat :: p < |attempts| && Prunes(attempts, device, p, e)
  {
    if Verify(g, device, now).Ok? { ReplayAnsweredIff(m, attempts, device, g, now); }
    if forall p | 0 <= p < |attempts| :: !Prunes(attempts, device, p, e) { EntryStays(m, attempts, device, g.id); }
  }

  /** Attempt `p` prunes entries expiring at `expiresAt`, and no attempt from it on consumes the grant. */
  predicate PrunedSince(accepted: seq<bool>, attempts: seq<Attempt>, device: DeviceId, expiresAt: Time, p: nat)
    requires |accepted| == |attempts| && p < |attempts|
  {
    Prunes(attempts, device, p, expiresAt) && forall i | p <= i < |accepted| :: !accepted[i]
  }

  /**
   The same for a grant that is held and whose every presentation carries the
   expiry it is held with: a valid presentation is missed exactly when its own
   reading is that expiry, or some valid attempt at or past the expiry came
   before it and no accepted presentation of the grant has come since.
   */
  lemma ReplayMissedIff(m: ReplaySet, attempts: seq<Attempt>, device: DeviceId, g: Grant, now: Time)
    requires Verify(g, device, now).Ok? && EntryOf(m, g.id) == Some(g.expiresAt)
    requires forall i | 0 <= i < |attempts| && attempts[i].grant.id == g.id ::
        attempts[i].grant.expiresAt == g.expiresAt
    ensures var accepted := Acceptances(m, attempts, device, g.id);
      Consume(ConsumeAll(m, attempts, device), g, device, now).0 != Err(Replay) <==>
        now == g.expiresAt || exists p: nat :: p < |attempts| && PrunedSince(accepted, attempts, device, g.expiresAt, p)
  {
    var accepted := Acceptances(m, attempts, device, g.id);
    forall k | 0 <= k < |attempts| && accepted[k] ensures attempts[k].grant.expiresAt == g.expiresAt {
      AcceptancesAre(m, attempts, device, g.id, k);
    }
    EntryIsHeldUnlessPruned(m, attempts, device, g.id, g.expiresAt);
  }

  lemma EntryIsHeldUnlessPruned(m: ReplaySet, attempts: seq<Attempt>, device: DeviceId, id: GrantId, e: Time)
    requires EntryOf(m, id) == Some(e)
    requires forall k | 0 <= k < |attempts| && Acceptances(m, attempts, device, id)[k] ::
        attempts[k].grant.expiresAt == e
    ensures EntryOf(ConsumeAll(m, attempts, device), id)
      == if exists p: nat :: p < |attempts| && PrunedSince(Acceptances(m, attempts, device, id), attempts, device, e, p)
         then None else Some(e)
  {
    var accepted, entry := Acceptances(m, attempts, device, id), EntryOf(ConsumeAll(m, attempts, device), id);
    HoldsUnlessPruned(accepted, attempts, device, e);
    EntryIff(m, attempts, device, id, accepted, Some(e), e);
    if entry.Some? { EntryIff(m, attempts, device, id, accepted, Some(e), entry.value); }
  }

  lemma HoldsUnlessPruned(accepted: seq<bool>, attempts: seq<Attempt>, device: DeviceId, e: Time)
    requires |accepted| == |attempts|
    requires forall k | 0 <= k < |attempts| && accepted[k] :: attempts[k].grant.expiresAt == e
    ensures (exists o :: HeldUntil(Some(e), accepted, attempts, device, o, e)) <==>
      !exists p: nat :: p < |attempts| && PrunedSince(accepted, attempts, device, e, p)
    ensures forall o, x | HeldUntil(Some(e), accepted, attempts, device, o, x) :: x == e
  {
    if p: nat :| p < |attempts| && PrunedSince(accepted, attempts, device, e, p) {
      forall o ensures !HeldUntil(Some(e), accepted, attempts, device, o, e) {
        if IsOrigin(Some(e), accepted, o) && FirstAfter(o) <= p { assert Prunes(attempts, device, p, e); }
      }
    } else {
      var o := LatestOrigin(accepted);
      forall p | FirstAfter(o) <= p < |attempts| ensures !Prunes(attempts, device, p, e) {
        assert !PrunedSince(accepted, attempts, device, e, p);
      }
      assert HeldUntil(Some(e), accepted, attempts, device, o, e);
    }
  }

  /** The last attempt that consumed the grant, or the start. */
  lemma {:induction false} LatestOrigin(accepted: seq<bool>) returns (o: Origin)
    ensures o.ByAttempt? ==> o.at < |accepted| && accepted[o.at]
    ensures forall p | FirstAfter(o) <= p < |accepted| :: !accepted[p]
  {
    if accepted == [] {
      o := Start;
    } else if accepted[|accepted| - 1] {
      o := ByAttempt(|accepted| - 1);
    } else {
      o := LatestOrigin(accepted[..|accepted| - 1]);
    }
  }

  /** The boundary: read exactly at its expiry, a grant still verifies and its entry is already pruned. */
  lemma HeldGrantIsAcceptedAtItsExpiry(m: ReplaySet, g: Grant, device: DeviceId)
    requires g.id in m && m[g.id] == g.expiresAt && Verify(g, device, g.expiresAt).Ok?
    requires |Live(m, g.expiresAt)| < MAX_REPLAY_ENTRIES
    ensures Consume(m, g, device, g.expiresAt).0.Ok?
    ensures forall now :: now < g.expiresAt && Verify(g, device, now).Ok? ==>
        Consume(m, g, device, now).0 == Err(Replay)
  {
  }
}
