/** A client's command, end to end: from its wire form, through a run of the cluster, into the store of
    every server. */
module ReplicatedService {
  import opened LogTypes
  import opened Membership
  import opened RaftProtocol
  import opened RaftAvailability
  import opened ReplicatedStore
  import RaftTheorems
  import KvModel
  import KvCommandCodec

  /** The state machine of server n has been handed the leader's log, with the command as its last entry. */
  ghost predicate Handed(json: JsonReader, log: Log, cmd: KvModel.Command, r: Replica) {
    && log != [] && log <= r.entries && Read(json, log[|log| - 1]) == Some(cmd)
  }

  lemma ServersOfRun(run: seq<Sys>, acts: seq<Action>, k: nat, n: ServerId)
    requires IsRun(run, acts) && k < |run| && n in run[k].nodes
    ensures n in run[0].nodes
  {
    var gs := RaftTheorems.RunHasShadows(run, acts);
    assert RaftTheorems.Advances(gs[0], gs[k]);
    RaftTheorems.OpenSys(run[0], gs[0]);
    RaftTheorems.OpenSys(run[k], gs[k]);
  }

  lemma PrefixKept(log: Log, whole: Log, i: nat)
    requires log <= whole && |log| <= i <= |whole|
    ensures log <= whole[..i]
  {
  }

  /** Whatever has happened in a run, it has a continuation after which every server has applied the
      command, behind the same entries: with ReplicasAgree, to the same effect. */
  lemma CommandTakesEffect(render: KvModel.Render, json: JsonReader, run: seq<Sys>, acts: seq<Action>, cmd: KvModel.Command)
    returns (run': seq<Sys>, acts': seq<Action>, log: Log)
    requires IsRun(run, acts)
    requires cmd.txn == None && !cmd.returnPrev && KvCommandCodec.Fits(KvCommandCodec.ToWire(cmd))
    ensures IsRun(run', acts') && run <= run' && acts <= acts'
    ensures forall n :: n in run'[|acts'|].nodes ==> Handed(json, log, cmd, ReplicaAt(render, json, run', acts', |acts'|, n))
  {
    var data := KvCommandCodec.WireBytes(KvCommandCodec.ToWire(cmd));
    var l: ServerId;
    run', acts', l := NeverStuck(run, acts, data);
    var s := run'[|acts'|];
    log := s.nodes[l].log;
    SentIsRead(json, log[|log| - 1], cmd);
    forall n | n in s.nodes ensures Handed(json, log, cmd, ReplicaAt(render, json, run', acts', |acts'|, n)) {
      ServersOfRun(run', acts', |acts'|, n);
      ReplicaIsLogPrefix(render, json, run', acts', |acts'|, n);
      PrefixKept(log, s.nodes[n].log, s.nodes[n].applyIndex);
    }
  }
}
