/**
 The per-client budget for transient bytes.  Each client's bucket refills at a
 rate up to a burst; one publish is charged to all its recipients or to none.

 Arithmetic is over the reals.
 */
module TokenBucket {
  import opened Base

  type ClientId = nat

  /** One admitted frame: when, and how many bytes. */
  datatype Charge = Charge(at: real, size: real)

  datatype Tokens = Tokens(remaining: real, at: real)

  function Max(a: real, b: real): real { if a < b then b else a }

  function Min(a: real, b: real): real { if a < b then a else b }

  // ------------------------------------------------------------------------
  // What a window holds
  // ------------------------------------------------------------------------

  /** The latest instant among the charges: the clock, for a clock that never steps back. */
  function Peak(l: seq<Charge>): real
    requires l != []
  {
    if |l| == 1 then l[0].at else Max(Peak(l[..|l| - 1]), Last(l).at)
  }

  /** The bytes charged from position i on. */
  function Bytes(l: seq<Charge>, i: nat): real
    requires i <= |l|
    decreases |l| - i
  {
    if i == |l| then 0.0 else l[i].size + Bytes(l, i + 1)
  }

  /** What has been earned by each instant; only differences of it matter. */
  type Earnings = real -> real

  function AtRate(rate: real): Earnings { x => x * rate }

  /** What the window from position i to the instant `now` may hold. */
  function Room(l: seq<Charge>, i: nat, now: real, earn: Earnings, burst: real): real
    requires i < |l|
  {
    burst + earn(now) - earn(Peak(l[..i + 1]))
  }

  /** Every window that ends with the ledger's last charge holds at most the burst and what it earned. */
  ghost predicate EndFits(l: seq<Charge>, earn: Earnings, burst: real) {
    l != [] ==> forall i :: 0 <= i < |l| ==> Bytes(l, i) <= Room(l, i, Peak(l), earn, burst)
  }

  /** Every window does. */
  ghost predicate Fits(l: seq<Charge>, earn: Earnings, burst: real) {
    forall j :: 0 <= j <= |l| ==> EndFits(l[..j], earn, burst)
  }

  /** One more frame at this instant would overfill no window, nor the burst. */
  ghost predicate Allowed(l: seq<Charge>, now: real, size: real, earn: Earnings, burst: real) {
    size <= burst &&
    (l != [] ==> forall i :: 0 <= i < |l| ==> Bytes(l, i) + size <= Room(l, i, Max(Peak(l), now), earn, burst))
  }

  /** The bucket's level is what its tightest window leaves. */
  ghost predicate Level(l: seq<Charge>, t: Tokens, earn: Earnings, burst: real) {
    && l != [] && t.at == Peak(l) && t.remaining <= burst
    && (forall i :: 0 <= i < |l| ==> Bytes(l, i) + t.remaining <= Room(l, i, t.at, earn, burst))
    && (exists i :: 0 <= i < |l| && Bytes(l, i) + t.remaining == Room(l, i, t.at, earn, burst))
  }

  lemma {:induction false} BytesAppend(l: seq<Charge>, c: Charge, i: nat)
    requires i <= |l|
    ensures Bytes(l + [c], i) == Bytes(l, i) + c.size
    decreases |l| - i
  {
    if i < |l| { BytesAppend(l, c, i + 1); }
  }

  lemma PeakAppend(l: seq<Charge>, c: Charge)
    ensures Peak(l + [c]) == if l == [] then c.at else Max(Peak(l), c.at)
  {
    assert (l + [c])[..|l|] == l;
  }

  lemma RoomAppend(l: seq<Charge>, c: Charge, i: nat, now: real, earn: Earnings, burst: real)
    requires i < |l|
    ensures Room(l + [c], i, now, earn, burst) == Room(l, i, now, earn, burst)
  {
    assert (l + [c])[..i + 1] == l[..i + 1];
  }

  lemma NewWindow(l: seq<Charge>, c: Charge, earn: Earnings, burst: real)
    ensures Bytes(l + [c], |l|) == c.size && Room(l + [c], |l|, Peak(l + [c]), earn, burst) == burst
  {
    var m := l + [c];
    assert m[..|l| + 1] == m;
    assert Bytes(m, |l| + 1) == 0.0;
  }

  // ------------------------------------------------------------------------
  // One client's bucket
  // ------------------------------------------------------------------------

  /** The refill a look at the bucket computes; a clock that has not moved on adds nothing. */
  function Refilled(t: Tokens, now: real, rate: real, burst: real): Tokens {
    if now - t.at > 0.0 then Tokens(Min(burst, t.remaining + (now - t.at) * rate), now) else t
  }

  ghost function Earned(t: Tokens, now: real, earn: Earnings, burst: real): Tokens {
    if now > t.at then Tokens(Min(burst, t.remaining + (earn(now) - earn(t.at))), now) else t
  }

  lemma RefilledEarned(t: Tokens, now: real, rate: real, burst: real)
    ensures Refilled(t, now, rate, burst) == Earned(t, now, AtRate(rate), burst)
  {
    AtRateOver(rate, t.at, now);
  }

  lemma AtRateOver(rate: real, from: real, to: real)
    ensures AtRate(rate)(to) - AtRate(rate)(from) == (to - from) * rate
  {
    Distribute(to, from, rate);
  }

  lemma Distribute(a: real, b: real, rate: real)
    ensures a * rate - b * rate == (a - b) * rate
  {
  }

  /** The refilled level admits a frame exactly when every window still fits. */
  lemma EarnedExactlyAllowed(l: seq<Charge>, t: Tokens, now: real, size: real, earn: Earnings, burst: real)
    requires Level(l, t, earn, burst) && size <= burst
    ensures size <= Earned(t, now, earn, burst).remaining <==> Allowed(l, now, size, earn, burst)
  {
    var peak := Max(Peak(l), now);
    var gain := earn(peak) - earn(t.at);
    forall i | 0 <= i < |l| ensures Room(l, i, peak, earn, burst) == Room(l, i, t.at, earn, burst) + gain {
    }
    var k :| 0 <= k < |l| && Bytes(l, k) + t.remaining == Room(l, k, t.at, earn, burst);
    if Allowed(l, now, size, earn, burst) {
      assert Bytes(l, k) + size <= Room(l, k, peak, earn, burst);
    } else {
      var i :| 0 <= i < |l| && Bytes(l, i) + size > Room(l, i, peak, earn, burst);
      assert Bytes(l, i) + t.remaining <= Room(l, i, t.at, earn, burst);
    }
  }

  /** Charging an admitted frame keeps the level exact. */
  lemma ChargedLevel(l: seq<Charge>, t: Tokens, now: real, size: real, earn: Earnings, burst: real)
    requires Level(l, t, earn, burst) && size >= 0.0
    ensures var r := Earned(t, now, earn, burst);
            Level(l + [Charge(now, size)], Tokens(r.remaining - size, r.at), earn, burst)
  {
    var c := Charge(now, size);
    var m := l + [c];
    var r := Earned(t, now, earn, burst);
    var u := Tokens(r.remaining - size, r.at);
    PeakAppend(l, c);
    var gain := earn(u.at) - earn(t.at);
    forall i | 0 <= i < |l|
      ensures Bytes(m, i) == Bytes(l, i) + size && Room(m, i, u.at, earn, burst) == Room(l, i, t.at, earn, burst) + gain
    {
      BytesAppend(l, c, i);
      RoomAppend(l, c, i, u.at, earn, burst);
    }
    NewWindow(l, c, earn, burst);
    var k :| 0 <= k < |l| && Bytes(l, k) + t.remaining == Room(l, k, t.at, earn, burst);
    var tight := if now > t.at && r.remaining == burst then |l| else k;
    assert Bytes(m, tight) + u.remaining == Room(m, tight, u.at, earn, burst);
  }

  lemma FirstCharge(now: real, size: real, earn: Earnings, burst: real)
    requires size >= 0.0
    ensures Level([Charge(now, size)], Tokens(burst - size, now), earn, burst)
  {
    NewWindow([], Charge(now, size), earn, burst);
    assert [] + [Charge(now, size)] == [Charge(now, size)];
  }

  /** A level at or above zero means every window ending here fits. */
  lemma LevelFits(l: seq<Charge>, c: Charge, t: Tokens, earn: Earnings, burst: real)
    requires Fits(l, earn, burst) && Level(l + [c], t, earn, burst) && t.remaining >= 0.0
    ensures Fits(l + [c], earn, burst)
  {
    var m := l + [c];
    forall j | 0 <= j <= |m| ensures EndFits(m[..j], earn, burst) {
      if j <= |l| {
        assert m[..j] == l[..j];
      } else {
        assert m[..j] == m;
      }
    }
  }

  // ------------------------------------------------------------------------
  // The budget
  // ------------------------------------------------------------------------

  ghost function Ids(clients: seq<ClientId>): set<ClientId> { set id | id in clients }

  /** Every recipient was charged for a frame, once however often it was named, and nobody else was. */
  ghost predicate IsCharged(was: map<ClientId, seq<Charge>>, now: map<ClientId, seq<Charge>>, to: set<ClientId>,
      c: Charge) {
    && (forall id :: id in now <==> id in was || id in to)
    && (forall id :: id in now ==> now[id] == if id in to then Since(was, id) + [c] else Since(was, id))
  }

  /** Every recipient but those left was. */
  ghost predicate PartlyCharged(
    was: map<ClientId, seq<Charge>>, now: map<ClientId, seq<Charge>>, to: set<ClientId>, left: set<ClientId>, c: Charge)
  {
    && left <= to
    && (forall id :: id in now <==> id in was || (id in to && id !in left))
    && (forall id :: id in now ==> now[id] == if id in to && id !in left then Since(was, id) + [c] else Since(was, id))
  }

  lemma PartlyChargedNext(
    was: map<ClientId, seq<Charge>>, now: map<ClientId, seq<Charge>>, to: set<ClientId>, left: set<ClientId>,
        id: ClientId, c: Charge)
    requires PartlyCharged(was, now, to, left, c) && id in left
    ensures PartlyCharged(was, now[id := Since(now, id) + [c]], to, left - {id}, c)
  {
  }

  /** A client's charges since it was last forgotten. */
  ghost function Since(ledger: map<ClientId, seq<Charge>>, id: ClientId): seq<Charge> {
    if id in ledger then ledger[id] else []
  }

  class Budget {
    const rate: real
    const burst: real
    var client: map<ClientId, Tokens>
    ghost var ledger: map<ClientId, seq<Charge>>

    constructor (rate: int, burst: int)
      ensures Valid() && client == map[] && this.rate == rate as real && this.burst == burst as real
    {
      this.rate, this.burst := rate as real, burst as real;
      client, ledger := map[], map[];
    }

    ghost predicate BucketOk(l: seq<Charge>, t: Tokens) {
      Level(l, t, AtRate(rate), burst) && Fits(l, AtRate(rate), burst)
    }

    ghost predicate Valid()
      reads this
    {
      Sound(client, ledger)
    }

    ghost predicate Sound(client: map<ClientId, Tokens>, ledger: map<ClientId, seq<Charge>>) {
      client.Keys == ledger.Keys && forall id :: id in client ==> BucketOk(ledger[id], client[id])
    }

    /** What the client's bucket holds at this instant. */
    function Looked(id: ClientId, now: real): Tokens
      reads this`client
    {
      if id in client then Refilled(client[id], now, rate, burst) else Tokens(burst, now)
    }

    /** These buckets are as a look at this instant finds them, with enough in each. */
    ghost predicate Enough(looked: map<ClientId, Tokens>, now: real, size: real)
      reads this`client
    {
      forall id :: id in looked ==> looked[id] == Looked(id, now) && size <= looked[id].remaining
    }

    /**
     Admits a frame to all its recipients or to none.  It is admitted exactly when it overfills no window of any
     recipient's, and a refusal changes nothing.
     */
    method Admit(clients: seq<ClientId>, size: int, now: real) returns (ok: bool)
      requires Valid()
      modifies this`client, this`ledger
      ensures Valid()
      ensures ok <==> 0 < size && size as real <= burst && AllAllowed(old(ledger), clients, now, size as real)
      ensures ok ==> IsCharged(old(ledger), ledger, Ids(clients), Charge(now, size as real))
      ensures !ok ==> client == old(client) && ledger == old(ledger)
    {
      if size <= 0 || size as real > burst { return false; }
      var looked := LookAll(clients, size as real, now);
      ok := looked.Some?;
      if ok { ChargeAll(looked.value, now, size as real); }
    }

    ghost predicate AllAllowed(ledger: map<ClientId, seq<Charge>>, clients: seq<ClientId>, now: real, size: real) {
      forall id :: id in clients ==> Allowed(Since(ledger, id), now, size, AtRate(rate), burst)
    }

    /** Every recipient's bucket as it stands now, unless one of them is short. */
    method LookAll(clients: seq<ClientId>, size: real, now: real) returns (r: Option<map<ClientId, Tokens>>)
      requires Valid() && size <= burst
      ensures r.Some? <==> AllAllowed(ledger, clients, now, size)
      ensures r.Some? ==> r.value.Keys == Ids(clients)
      ensures r.Some? ==> Enough(r.value, now, size)
    {
      var updated: map<ClientId, Tokens> := map[];
      var i := 0;
      while i < |clients|
        invariant 0 <= i <= |clients|
        invariant updated.Keys == Ids(clients[..i])
        invariant Enough(updated, now, size)
      {
        var state := Looked(clients[i], now);
        if state.remaining < size {
          RefusedNotAllowed(clients[i], now, size);
          return None;
        }
        assert clients[..i + 1] == clients[..i] + [clients[i]];
        updated := updated[clients[i] := state];
        i := i + 1;
      }
      assert clients[..i] == clients;
      forall id | id in clients ensures Allowed(Since(ledger, id), now, size, AtRate(rate), burst) {
        assert id in updated;
        AdmittedAllowed(id, now, size);
      }
      r := Some(updated);
    }

    lemma RefusedNotAllowed(id: ClientId, now: real, size: real)
      requires Valid() && size <= burst && Looked(id, now).remaining < size
      ensures !Allowed(Since(ledger, id), now, size, AtRate(rate), burst)
    {
      assert BucketOk(ledger[id], client[id]);
      RefilledEarned(client[id], now, rate, burst);
      EarnedExactlyAllowed(ledger[id], client[id], now, size, AtRate(rate), burst);
    }

    lemma AdmittedAllowed(id: ClientId, now: real, size: real)
      requires Valid() && size <= burst && size <= Looked(id, now).remaining
      ensures Allowed(Since(ledger, id), now, size, AtRate(rate), burst)
    {
      if id in client {
        assert BucketOk(ledger[id], client[id]);
        RefilledEarned(client[id], now, rate, burst);
        EarnedExactlyAllowed(ledger[id], client[id], now, size, AtRate(rate), burst);
      }
    }

    /** Charges every looked-at bucket. */
    method ChargeAll(updated: map<ClientId, Tokens>, now: real, size: real)
      requires Valid() && 0.0 < size
      requires Enough(updated, now, size)
      modifies this`client, this`ledger
      ensures Valid() && IsCharged(old(ledger), ledger, updated.Keys, Charge(now, size))
    {
      ChargedBuckets(updated, now, size);
      Spend(updated, Charge(now, size), size);
    }

    /** Every looked-at bucket would be sound once charged. */
    lemma ChargedBuckets(updated: map<ClientId, Tokens>, now: real, size: real)
      requires Valid() && 0.0 < size
      requires Enough(updated, now, size)
      ensures Chargeable(updated, updated.Keys, Charge(now, size))
    {
      forall id | id in updated ensures BucketOk(Since(ledger, id) + [Charge(now, size)], Spent(updated[id], size)) {
        ChargeBucket(id, now, size);
      }
    }

    ghost predicate Chargeable(updated: map<ClientId, Tokens>, left: set<ClientId>, c: Charge)
      reads this`ledger
    {
      forall id :: id in left ==> id in updated && BucketOk(Since(ledger, id) + [c], Spent(updated[id], c.size))
    }

    static function Spent(t: Tokens, size: real): Tokens { Tokens(t.remaining - size, t.at) }

    /** The write itself, bucket by bucket in whatever order. */
    method Spend(updated: map<ClientId, Tokens>, ghost c: Charge, size: real)
      requires Valid() && size == c.size && Chargeable(updated, updated.Keys, c)
      modifies this`client, this`ledger
      ensures Valid() && IsCharged(old(ledger), ledger, updated.Keys, c)
    {
      var left := updated.Keys;
      while left != {}
        invariant Valid() && Chargeable(updated, left, c)
        invariant PartlyCharged(old(ledger), ledger, updated.Keys, left, c)
        decreases |left|
      {
        var id :| id in left;
        PartlyChargedNext(old(ledger), ledger, updated.Keys, left, id, c);
        SpendOne(updated, left, id, c, size);
        left := left - {id};
      }
    }

    method SpendOne(updated: map<ClientId, Tokens>, ghost left: set<ClientId>, id: ClientId, ghost c: Charge,
        size: real)
      requires Valid() && size == c.size && Chargeable(updated, left, c) && id in left && id in updated
      modifies this`client, this`ledger
      ensures Valid() && Chargeable(updated, left - {id}, c)
      ensures ledger == old(ledger)[id := Since(old(ledger), id) + [c]]
    {
      client := client[id := Spent(updated[id], size)];
      ledger := ledger[id := Since(ledger, id) + [c]];
    }

    lemma ChargeBucket(id: ClientId, now: real, size: real)
      requires Valid() && 0.0 < size <= Looked(id, now).remaining
      ensures BucketOk(Since(ledger, id) + [Charge(now, size)],
          Tokens(Looked(id, now).remaining - size, Looked(id, now).at))
    {
      var l := Since(ledger, id);
      var state := Looked(id, now);
      if id in client {
        assert BucketOk(ledger[id], client[id]);
        RefilledEarned(client[id], now, rate, burst);
        ChargedLevel(l, client[id], now, size, AtRate(rate), burst);
      } else {
        FirstCharge(now, size, AtRate(rate), burst);
        assert [] + [Charge(now, size)] == [Charge(now, size)];
      }
      LevelFits(l, Charge(now, size), Tokens(state.remaining - size, state.at), AtRate(rate), burst);
    }

    lemma LedgerFits(id: ClientId)
      requires Valid() && id in ledger
      ensures Fits(ledger[id], AtRate(rate), burst)
    {
      assert BucketOk(ledger[id], client[id]);
    }

    /**
     Of any client, since it was last forgotten, the bytes admitted in any window are at most burst + rate x window.
     */
    lemma AnyWindow(id: ClientId, i: nat, j: nat)
      requires Valid() && id in ledger && i <= j < |ledger[id]|
      ensures Bytes(ledger[id][..j + 1], i) <= burst + Over(rate, Seen(ledger[id], j) - Seen(ledger[id], i))
    {
      LedgerFits(id);
      WindowBound(ledger[id], i, j, rate, burst);
    }

    /** Under accepted limits no client is charged a queue's worth in 30 seconds, whoever else a frame went to. */
    lemma QueueNeverFilled(o: LiveText, id: ClientId, i: nat, j: nat)
      requires Valid() && Accepted(o) && rate == Effective(o).rate as real && burst == Effective(o).burst as real
      requires id in ledger && i <= j < |ledger[id]| && Seen(ledger[id], j) - Seen(ledger[id], i) <= 30.0
      ensures Bytes(ledger[id][..j + 1], i) < ClientQueue as real
    {
      LedgerFits(id);
      AcceptedExactly(o);
      WindowBelowQueue(Effective(o).rate, Effective(o).burst, ledger[id], i, j);
    }

    method Forget(id: ClientId)
      requires Valid()
      modifies this`client, this`ledger
      ensures Valid() && client == old(client) - {id} && ledger == old(ledger) - {id}
    {
      client, ledger := client - {id}, ledger - {id};
    }
  }

  // ------------------------------------------------------------------------
  // Windows on the clock, and the composition's limits
  // ------------------------------------------------------------------------

  /** The clock never stepped back between these charges. */
  predicate Steady(l: seq<Charge>) { forall i, j :: 0 <= i < j < |l| ==> l[i].at <= l[j].at }

  lemma {:induction false} PeakSteady(l: seq<Charge>)
    requires l != [] && Steady(l)
    ensures Peak(l) == Last(l).at
  {
    if |l| > 1 {
      var front := l[..|l| - 1];
      PeakSteady(front);
      assert Last(front) == l[|l| - 2];
    }
  }

  /** What a window of this length earns. */
  function Over(rate: real, window: real): real { window * rate }

  /** The clock as the budget has seen it by the i-th charge; on a steady clock, that charge's own instant. */
  function Seen(l: seq<Charge>, i: nat): real
    requires i < |l|
  {
    Peak(l[..i + 1])
  }

  lemma SeenSteady(l: seq<Charge>, i: nat)
    requires Steady(l) && i < |l|
    ensures Seen(l, i) == l[i].at
  {
    PeakSteady(l[..i + 1]);
  }

  lemma WindowEarned(l: seq<Charge>, i: nat, j: nat, gain: real, earn: Earnings, burst: real)
    requires Fits(l, earn, burst) && i <= j < |l| && earn(Seen(l, j)) - earn(Seen(l, i)) == gain
    ensures Bytes(l[..j + 1], i) <= burst + gain
  {
    var m := l[..j + 1];
    assert EndFits(m, earn, burst);
    assert Bytes(m, i) <= Room(m, i, Peak(m), earn, burst);
    assert m[..i + 1] == l[..i + 1];
  }

  lemma WindowBound(l: seq<Charge>, i: nat, j: nat, rate: real, burst: real)
    requires Fits(l, AtRate(rate), burst) && i <= j < |l|
    ensures Bytes(l[..j + 1], i) <= burst + Over(rate, Seen(l, j) - Seen(l, i))
  {
    AtRateOver(rate, Seen(l, i), Seen(l, j));
    WindowEarned(l, i, j, Over(rate, Seen(l, j) - Seen(l, i)), AtRate(rate), burst);
  }

  const DefaultRate := 32 * 1024
  const DefaultBurst := 8 * 1024
  const MaxFrame := 4 * 1024
  const ClientQueue := 1024 * 1024

  datatype LiveText = LiveText(rate: int, burst: int)

  /** The configured limits, with the defaults for those left at zero. */
  function Effective(o: LiveText): LiveText {
    LiveText(if o.rate == 0 then DefaultRate else o.rate, if o.burst == 0 then DefaultBurst else o.burst)
  }

  predicate Accepted(o: LiveText) {
    var e := Effective(o);
    && o.rate >= 0 && o.burst >= 0
    && e.burst >= MaxFrame
    && e.burst < ClientQueue && e.rate <= (ClientQueue - 1 - e.burst) / 30
  }

  /** The division in the check loses nothing: it accepts exactly what keeps a 30-second window below the queue. */
  lemma AcceptedExactly(o: LiveText)
    ensures Accepted(o) <==>
            o.rate >= 0 && o.burst >= 0 && Effective(o).burst >= MaxFrame &&
                Effective(o).burst + 30 * Effective(o).rate < ClientQueue
    ensures Accepted(LiveText(0, 0))
  {
  }

  lemma WindowBelowQueue(rate: int, burst: int, l: seq<Charge>, i: nat, j: nat)
    requires rate >= 0 && burst + 30 * rate < ClientQueue
    requires Fits(l, AtRate(rate as real), burst as real)
    requires i <= j < |l| && Seen(l, j) - Seen(l, i) <= 30.0
    ensures Bytes(l[..j + 1], i) < ClientQueue as real
  {
    WindowBound(l, i, j, rate as real, burst as real);
    BelowQueue(Bytes(l[..j + 1], i), rate, burst, Seen(l, j) - Seen(l, i));
  }

  lemma BelowQueue(bytes: real, rate: int, burst: int, window: real)
    requires rate >= 0 && burst + 30 * rate < ClientQueue && window <= 30.0
    requires bytes <= burst as real + Over(rate as real, window)
    ensures bytes < ClientQueue as real
  {
    Nonnegative(30.0 - window, rate as real);
    Distribute(30.0, window, rate as real);
    assert (burst + 30 * rate) as real == burst as real + 30.0 * (rate as real);
  }

  lemma Nonnegative(a: real, b: real)
    requires a >= 0.0 && b >= 0.0
    ensures a * b >= 0.0
  {
  }
}
