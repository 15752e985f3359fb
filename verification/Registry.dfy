/** What is declared, which lane each row drains in, and the lease a claim stamps. */
module Registry {
  import opened Rows

  const DEFAULT_LANE := "default"

  datatype Mode = Durable | Inline | OnCommit
  datatype Site = InRelay | InTask

  /** `due=`: a delay counted from the event, or a callable asked about it. */
  datatype Due = Delay(delay: int) | Asked

  datatype Receiver = Receiver(
    key: string,
    eventClass: string,
    mode: Mode,
    maxAttempts: nat,
    eager: bool,
    site: Site,
    lane: string,
    lease: Option<nat>,
    base: Option<nat>,
    cap: Option<nat>,
    giveUpAfter: Option<nat>,
    fansOut: bool,
    due: Option<Due>)

  datatype Settings = Settings(lease: nat, base: nat, cap: nat, ceiling: nat)

  type Receivers = map<string, Receiver>

  const MAX_KEY_LENGTH := 255

  /** The dict is keyed by each receiver's own key. */
  predicate Keyed(rs: Receivers) {
    forall k <- rs :: rs[k].key == k
  }

  class Registry {
    var receivers: Receivers

    predicate Valid()
      reads this
    {
      Keyed(receivers)
    }

    constructor ()
      ensures Valid() && receivers == map[]
    {
      receivers := map[];
    }

    /** Refused over the column's width, or when the key names another declaration. */
    method RegisterReceiver(r: Receiver) returns (ok: bool)
      requires Valid()
      modifies this
      ensures Valid()
      ensures ok <==> |r.key| <= 255 && (r.key in old(receivers) ==> old(receivers)[r.key] == r)
      ensures receivers == if ok then old(receivers)[r.key := r] else old(receivers)
    {
      ok := |r.key| <= MAX_KEY_LENGTH && (r.key in receivers ==> receivers[r.key] == r);
      if ok {
        receivers := receivers[r.key := r];
      }
    }

    method Clear()
      modifies this
      ensures Valid() && receivers == map[]
    {
      receivers := map[];
    }
  }

  // ---- Lanes ----------------------------------------------------------------

  function Lanes(rs: Receivers): set<string> {
    {DEFAULT_LANE} + set k | k in rs :: rs[k].lane
  }

  function KeysInLane(rs: Receivers, lane: string): set<string> {
    set k | k in rs && rs[k].lane == lane :: rs[k].key
  }

  function KeysInNamedLanes(rs: Receivers): set<string> {
    set k | k in rs && rs[k].lane != DEFAULT_LANE :: rs[k].key
  }

  function LaneForKey(rs: Receivers, key: string): string {
    if key in rs then rs[key].lane else DEFAULT_LANE
  }

  /** The claim's lane condition; None claims every lane. */
  predicate InLane(rs: Receivers, lane: Option<string>, key: string) {
    match lane
    case None => true
    case Some(name) =>
      if name == DEFAULT_LANE then key !in KeysInNamedLanes(rs) else key in KeysInLane(rs, name)
  }

  /** Lanes partition the outbox: whatever the key, a deleted receiver's included,
      exactly one lane's claim accepts it, and it is the key's own. */
  lemma LanesPartition(rs: Receivers, key: string, lane: string)
    requires Keyed(rs)
    ensures LaneForKey(rs, key) in Lanes(rs)
    ensures lane in Lanes(rs) && InLane(rs, Some(lane), key) <==> lane == LaneForKey(rs, key)
  {
    if key in rs {
      assert rs[key].lane in Lanes(rs);
      assert rs[key].key == key;
      if rs[key].lane != DEFAULT_LANE {
        assert key in KeysInNamedLanes(rs);
      }
      assert key in KeysInLane(rs, rs[key].lane);
    }
  }

  // ---- Claim leases ------------------------------------------------------------

  /** `lease_seconds`, or the setting. */
  function LeaseOf(rs: Receivers, key: string, default: nat): nat {
    if key in rs && rs[key].lease.Some? then rs[key].lease.value else default
  }

  predicate Counted(r: Receiver, lane: Option<string>, eager: bool) {
    r.mode == Durable && (r.eager || !eager) && (lane.None? || r.lane == lane.value)
  }

  function LeasesOf(rs: Receivers, lane: Option<string>, default: nat, eager: bool): set<nat> {
    set k | k in rs && Counted(rs[k], lane, eager) :: if rs[k].lease.None? then default else rs[k].lease.value
  }

  lemma OneMember(s: set<nat>, a: nat, b: nat)
    requires |s| == 1 && a in s && b in s
    ensures a == b
  {
    assert |s - {a}| == 0;
    assert b !in s - {a};
  }

  /** The lease a claim stamps: the one its receivers share, never above the setting,
      and a tenth more. */
  function ClaimLease(rs: Receivers, lane: Option<string>, default: nat, eager: bool): (r: nat)
    ensures r <= Headroom(default)
  {
    var leases := LeasesOf(rs, lane, default, eager);
    var shared: nat :=
      if |leases| == 1 then
        assert forall a, b | a in leases && b in leases :: a == b by {
          forall a, b | a in leases && b in leases ensures a == b {
            OneMember(leases, a, b);
          }
        }
        var only :| only in leases; only
      else default;
    Headroom(Min(shared, default))
  }

  /** A lane whose durable receivers share a lease within the setting is claimed
      under it; one that does not is claimed under the setting. */
  lemma UniformLanesStampTheirOwn(rs: Receivers, lane: Option<string>, default: nat, eager: bool, lease: nat)
    ensures LeasesOf(rs, lane, default, eager) == {lease} ==>
              ClaimLease(rs, lane, default, eager) == Headroom(Min(lease, default))
    ensures (forall l :: LeasesOf(rs, lane, default, eager) != {l}) ==>
              ClaimLease(rs, lane, default, eager) == Headroom(default)
  {
    var leases := LeasesOf(rs, lane, default, eager);
    if |leases| == 1 {
      var only :| only in leases;
      assert leases == {only} by {
        forall l <- leases ensures l == only {
          OneMember(leases, l, only);
        }
      }
    }
  }

  /** What a claim stamps, read off the receivers: where every durable receiver it is for
      has one lease, a tenth more than that or than the setting, whichever is the less;
      where two differ, or there is none, a tenth more than the setting. */
  lemma StampsTheSharedLease(rs: Receivers, lane: Option<string>, default: nat, eager: bool, one: string, lease: nat)
    requires one in rs && For(rs[one], lane, eager) && OwnLease(rs[one], default) == lease
    ensures var stamped := ClaimLease(rs, lane, default, eager);
            if forall k <- rs | For(rs[k], lane, eager) :: OwnLease(rs[k], default) == lease
            then 10 * stamped <= 11 * Min(lease, default) < 10 * (stamped + 1)
            else 10 * stamped <= 11 * default < 10 * (stamped + 1)
  {
    var leases := LeasesOf(rs, lane, default, eager);
    assert lease in leases;
    if forall k <- rs | For(rs[k], lane, eager) :: OwnLease(rs[k], default) == lease {
      assert leases == {lease};
    } else {
      var other :| other in rs && For(rs[other], lane, eager) && OwnLease(rs[other], default) != lease;
      assert OwnLease(rs[other], default) in leases;
    }
    UniformLanesStampTheirOwn(rs, lane, default, eager, lease);
    assert forall l :: leases == {l} ==> l == lease;
  }

  lemma NoneStampsTheSetting(rs: Receivers, lane: Option<string>, default: nat, eager: bool)
    requires forall k <- rs :: !For(rs[k], lane, eager)
    ensures var stamped := ClaimLease(rs, lane, default, eager);
            10 * stamped <= 11 * default < 10 * (stamped + 1)
  {
    assert LeasesOf(rs, lane, default, eager) == {};
  }

  /** A durable receiver of the lane, or of any; an eager one, where only those are claimed. */
  predicate For(r: Receiver, lane: Option<string>, eager: bool) {
    r.mode == Durable && (eager ==> r.eager) && (lane.Some? ==> r.lane == lane.value)
  }

  function OwnLease(r: Receiver, default: nat): nat {
    if r.lease.Some? then r.lease.value else default
  }

  /** A row claimed under its receiver's lease and headroom starts without an
      extension exactly in the headroom's span after the claim. */
  lemma HeadroomIsTheBand(row: Row, worker: string, claimedAt: Time, lease: nat, now: Time)
    ensures LeasedFor(ClaimedBy(row, worker, claimedAt, Headroom(lease)), Token(worker, Some(claimedAt)), now, lease)
       <==> claimedAt <= now <= claimedAt + (Headroom(lease) - lease)
    ensures 10 * (Headroom(lease) - lease) <= lease < 10 * (Headroom(lease) - lease + 1)
  {
  }
}
