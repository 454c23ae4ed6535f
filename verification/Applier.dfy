/** The transaction agent's side of replication: appliers that count the acknowledgements of the engines down. */
module Applier {
  import opened Convergence
  import opened Replica

  /** The transaction agent's appliers, each with the number of acknowledgements it still expects. */
  class Agent {
    var appliers: map<int, int>

    constructor ()
      ensures appliers == map[]
    {
      appliers := map[];
    }

    /** TOPIC_ACKAPPLY with status OK: the applier counts down and is retired at zero. */
    method AckedApply(applierid: int)
      modifies this
      ensures appliers == Acknowledge(old(appliers), applierid)
    {
      if applierid in appliers {
        appliers := appliers[applierid := appliers[applierid] - 1];
        if appliers[applierid] == 0 {
          appliers := appliers - {applierid};
        }
      }
    }
  }

  function Acknowledge(appliers: map<int, int>, applierid: int): map<int, int> {
    if applierid !in appliers then appliers
    else if appliers[applierid] == 1 then appliers - {applierid}
    else appliers[applierid := appliers[applierid] - 1]
  }

  function AcknowledgeAll(appliers: map<int, int>, ids: seq<int>): map<int, int> {
    if ids == [] then appliers else Acknowledge(AcknowledgeAll(appliers, ids[..|ids| - 1]), ids[|ids| - 1])
  }

  function Occurrences(ids: seq<int>, id: int): nat {
    if ids == [] then 0 else Occurrences(ids[..|ids| - 1], id) + if ids[|ids| - 1] == id then 1 else 0
  }

  /**
   * An applier set up to expect `n` acknowledgements is retired by exactly the
   * `n`-th, if `n` is positive; one that expects none, or fewer, is never retired.
   */
  lemma {:induction false} RetiredIff(appliers: map<int, int>, ids: seq<int>, id: int)
    requires id in appliers
    ensures var n, k := appliers[id], Occurrences(ids, id);
      && (id !in AcknowledgeAll(appliers, ids) <==> 1 <= n <= k)
      && (id in AcknowledgeAll(appliers, ids) ==> AcknowledgeAll(appliers, ids)[id] == n - k)
    decreases |ids|
  {
    if ids != [] {
      RetiredIff(appliers, ids[..|ids| - 1], id);
    }
  }

  /** The partitions whose engine has acknowledged its subtransaction. */
  ghost function Acknowledgers(engines: map<int, Engine>, subs: map<int, int>): (ps: set<int>)
    requires engines.Keys <= subs.Keys
    reads engines.Values
    ensures ps <= engines.Keys
  {
    set p | p in engines && AckedTo(engines[p].acks, subs[p]) != []
  }

  /** The partitions whose engine is done with its subtransaction. */
  ghost function Finished(engines: map<int, Engine>, subs: map<int, int>): set<int>
    requires engines.Keys <= subs.Keys
    reads engines.Values
  {
    set p | p in engines && AllHandled(engines[p], subs[p])
  }

  ghost function Pick(keys: set<int>): (p: int)
    requires keys != {}
    ensures p in keys
  {
    assert (forall p: int :: p !in keys) ==> keys == {};
    var p :| p in keys; p
  }

  /** How many acknowledgements these partitions' engines have sent to the applier. */
  ghost function Sent(engines: map<int, Engine>, subs: map<int, int>, keys: set<int>, applierid: int): nat
    requires keys <= engines.Keys <= subs.Keys
    reads engines.Values
  {
    if keys == {} then 0
    else
      var p := Pick(keys);
      Occurrences(AckedTo(engines[p].acks, subs[p]), applierid) + Sent(engines, subs, keys - {p}, applierid)
  }

  /** An engine that was contacted sends its applier one acknowledgement, or none yet. */
  lemma OneAck(engine: Engine, sub: int, applierid: int)
    requires Contacted(engine, sub, applierid)
    ensures Occurrences(AckedTo(engine.acks, sub), applierid) == if AckedTo(engine.acks, sub) == [] then 0 else 1
  {
    var acks := AckedTo(engine.acks, sub);
    if acks != [] {
      AckedMeansApplied(engine, sub, Row(0, sub, 0, ""));
      assert |acks| == 1 && acks[0] in acks;
      assert acks == [applierid] && acks[..0] == [];
    }
  }

  lemma OneMore(acked: set<int>, keys: set<int>, p: int)
    requires p in keys
    ensures |acked * keys| == |acked * (keys - {p})| + if p in acked then 1 else 0
  {
    if p in acked {
      assert acked * keys == acked * (keys - {p}) + {p};
    } else {
      assert acked * keys == acked * (keys - {p});
    }
  }

  lemma {:induction false} SentByAcknowledgers(engines: map<int, Engine>, subs: map<int, int>, keys: set<int>, id: int)
    requires keys <= engines.Keys <= subs.Keys
    requires forall p :: p in keys ==> Contacted(engines[p], subs[p], id)
    ensures Sent(engines, subs, keys, id) == |Acknowledgers(engines, subs) * keys|
  {
    if keys == {} {
      assert Acknowledgers(engines, subs) * keys == {};
    } else {
      var p := Pick(keys);
      OneAck(engines[p], subs[p], id);
      SentByAcknowledgers(engines, subs, keys - {p}, id);
      OneMore(Acknowledgers(engines, subs), keys, p);
    }
  }

  lemma AllOfThem(s: set<int>, t: set<int>)
    requires s <= t
    ensures s * t == s
  {
  }

  lemma SentByTheFinished(engines: map<int, Engine>, subs: map<int, int>, id: int)
    requires engines.Keys <= subs.Keys
    requires forall p :: p in engines ==> Contacted(engines[p], subs[p], id)
    ensures Sent(engines, subs, engines.Keys, id) == |Finished(engines, subs)|
  {
    SentByAcknowledgers(engines, subs, engines.Keys, id);
    AcknowledgersFinished(engines, subs, id);
    AllOfThem(Acknowledgers(engines, subs), engines.Keys);
  }

  lemma AcknowledgersFinished(engines: map<int, Engine>, subs: map<int, int>, id: int)
    requires engines.Keys <= subs.Keys
    requires forall p :: p in engines ==> Contacted(engines[p], subs[p], id)
    ensures Acknowledgers(engines, subs) == Finished(engines, subs)
  {
    forall p | p in engines ensures p in Acknowledgers(engines, subs) <==> p in Finished(engines, subs) {
      FinishedIffAcked(engines, subs, id, p);
    }
  }

  lemma FinishedIffAcked(engines: map<int, Engine>, subs: map<int, int>, id: int, p: int)
    requires engines.Keys <= subs.Keys && p in engines && Contacted(engines[p], subs[p], id)
    ensures p in Acknowledgers(engines, subs) <==> p in Finished(engines, subs)
  {
    AckedIffHandled(engines[p], subs[p], id);
  }

  /**
   * An applier set up to expect one acknowledgement from each engine it has
   * contacted is retired only after all of them are done with everything, however
   * many acknowledgements are still under way; with none under way, exactly then. All
   * is applied where it belongs exactly if moreover nothing was applied elsewhere.
   */
  lemma RetiredWhenAllHaveApplied(appliers: map<int, int>, ids: seq<int>, id: int,
                                  engines: map<int, Engine>, subs: map<int, int>)
    requires id in appliers && appliers[id] == |engines| && engines.Keys <= subs.Keys
    requires forall p :: p in engines ==> Contacted(engines[p], subs[p], id)
    requires Occurrences(ids, id) <= Sent(engines, subs, engines.Keys, id)
    ensures id !in AcknowledgeAll(appliers, ids) ==> engines != map[] && Finished(engines, subs) == engines.Keys
    ensures Occurrences(ids, id) == Sent(engines, subs, engines.Keys, id) ==>
              (id !in AcknowledgeAll(appliers, ids) <==> engines != map[] && Finished(engines, subs) == engines.Keys)
    ensures forall p :: p in Finished(engines, subs) ==> (AllApplied(engines[p], subs[p]) <==> AtHome(engines[p], subs[p]))
  {
    RetiredIff(appliers, ids, id);
    SentByTheFinished(engines, subs, id);
    SameSizeIff(Finished(engines, subs), engines.Keys);
    assert |engines| == |engines.Keys|;
    assert engines.Keys == {} <==> engines == map[];
    forall p | p in Finished(engines, subs) ensures AllApplied(engines[p], subs[p]) <==> AtHome(engines[p], subs[p]) {
      AppliedIffAtHome(engines[p], subs[p]);
    }
  }

  lemma SameSizeIff(s: set<int>, t: set<int>)
    requires s <= t
    ensures |s| >= |t| <==> s == t
  {
    assert |t - s| == |t| - |s|;
  }

  /** handledispatch sets the count to zero before it knows the partitions: no such applier is ever retired. */
  lemma DispatchedAppliersStay(appliers: map<int, int>, ids: seq<int>, id: int)
    requires id in appliers && appliers[id] == 0
    ensures id in AcknowledgeAll(appliers, ids)
  {
    RetiredIff(appliers, ids, id);
  }
}
