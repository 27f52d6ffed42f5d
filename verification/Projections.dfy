/**
 Incremental activity projections against a full scan of the activity log
 (app/services/visibility/projections.py, service.py).
 */
module Projections {
  import opened Shared

  datatype Activity = Activity(source: string, kind: string, applicationRef: Option<string>, sessionId: Option<string>,
                               identity: Option<string>, conversationId: Option<string>)

  /** The first of the ids that is there and not empty, otherwise the last one as it is. */
  function SubjectOf(a: Activity): (r: Option<string>)
    ensures IsText(a.applicationRef) ==> r == a.applicationRef
    ensures !IsText(a.applicationRef) && IsText(a.sessionId) ==> r == a.sessionId
    ensures !IsText(a.applicationRef) && !IsText(a.sessionId) && IsText(a.identity) ==> r == a.identity
    ensures !IsText(a.applicationRef) && !IsText(a.sessionId) && !IsText(a.identity) ==> r == a.conversationId
  {
    Or(a.applicationRef, Or(a.sessionId, Or(a.identity, a.conversationId)))
  }

  predicate IsText(a: Option<string>) {
    a.Some? && a.value != ""
  }

  function Or(a: Option<string>, b: Option<string>): Option<string> {
    if a.Some? && a.value != "" then a else b
  }

  datatype Stage = Stage(key: string, kinds: set<string>)

  // ----- the full scan -----

  function CountSource(log: seq<Activity>, source: string): nat {
    if log == [] then 0
    else CountSource(log[..|log| - 1], source) + if log[|log| - 1].source == source then 1 else 0
  }

  function CountKind(log: seq<Activity>, kind: string): nat {
    if log == [] then 0
    else CountKind(log[..|log| - 1], kind) + if log[|log| - 1].kind == kind then 1 else 0
  }

  /** The subjects of the log's activities of some kinds. */
  function Subjects(log: seq<Activity>, kinds: set<string>): set<string> {
    set a | a in log && a.kind in kinds && SubjectOf(a).Some? :: SubjectOf(a).value
  }

  /** All kinds that lead to a stage key; stages may overlap and even share a key. */
  function KindsOf(stages: seq<Stage>, key: string): set<string> {
    if stages == [] then {}
    else KindsOf(stages[1..], key) + if stages[0].key == key then stages[0].kinds else {}
  }

  lemma {:induction false} KindsOfMembers(stages: seq<Stage>, key: string)
    ensures forall kind :: kind in KindsOf(stages, key) <==>
                             exists i :: 0 <= i < |stages| && stages[i].key == key && kind in stages[i].kinds
  {
    if stages != [] {
      KindsOfMembers(stages[1..], key);
      forall kind
        ensures kind in KindsOf(stages, key) <==>
                exists i :: 0 <= i < |stages| && stages[i].key == key && kind in stages[i].kinds
      {
        if kind in KindsOf(stages[1..], key) {
          var i :| 0 <= i < |stages[1..]| && stages[1..][i].key == key && kind in stages[1..][i].kinds;
          assert stages[i + 1].key == key;
        }
        if i :| 0 <= i < |stages| && stages[i].key == key && kind in stages[i].kinds {
          assert i > 0 ==> stages[1..][i - 1] == stages[i];
        }
      }
    }
  }

  lemma SubjectsAppend(log: seq<Activity>, a: Activity, kinds: set<string>)
    ensures Subjects(log + [a], kinds) ==
            Subjects(log, kinds) + if a.kind in kinds && SubjectOf(a).Some? then {SubjectOf(a).value} else {}
  {
  }

  // ----- the projections -----

  function At(counts: map<string, nat>, name: string): nat {
    if name in counts then counts[name] else 0
  }

  class VisibilityService {
    var log: seq<Activity>
    var total: nat
    var bySource: map<string, nat>
    var byKind: map<string, nat>
    const stages: seq<Stage>
    var index: map<string, seq<string>>
    var reached: map<string, set<string>>

    /** The type index names, per kind, the keys of the stages that hold it. */
    ghost predicate IndexValid()
      reads this
    {
      && (forall s :: s in stages ==> s.key in reached)
      && (forall key :: key in reached ==> exists s :: s in stages && s.key == key)
      && IndexOf(stages, index)
    }

    /** Every projection equals its scan of the whole log. */
    ghost predicate Valid()
      reads this
    {
      && IndexValid()
      && total == |log|
      && (forall source :: At(bySource, source) == CountSource(log, source))
      && (forall kind :: At(byKind, kind) == CountKind(log, kind))
      && (forall key :: key in reached ==> reached[key] == Subjects(log, KindsOf(stages, key)))
    }

    constructor (stages: seq<Stage>)
      ensures Valid() && this.stages == stages && log == []
    {
      this.stages := stages;
      log, total, bySource, byKind := [], 0, map[], map[];
      reached := map s | s in stages :: s.key := {};
      index := map[];
      new;
      for i := 0 to |stages|
        invariant log == [] && total == 0 && bySource == map[] && byKind == map[]
        invariant reached == map s | s in stages :: s.key := {}
        invariant IndexOf(stages[..i], index)
      {
        AddToIndex(stages[..i], stages[i]);
        assert stages[..i + 1] == stages[..i] + [stages[i]];
      }
      assert stages[..|stages|] == stages;
    }

    method AddToIndex(done: seq<Stage>, stage: Stage)
      requires IndexOf(done, index)
      modifies this`index
      ensures IndexOf(done + [stage], index)
    {
      ghost var before := index;
      var todo := stage.kinds;
      while todo != {}
        invariant todo <= stage.kinds
        invariant forall kind, key :: Indexed(index, kind, key) <==>
                                        Indexed(before, kind, key) || (kind in stage.kinds - todo && key == stage.key)
        invariant forall kind :: kind in index ==> index[kind] != []
        decreases todo
      {
        var kind :| kind in todo;
        ghost var was := index;
        index := index[kind := (if kind in index then index[kind] else []) + [stage.key]];
        assert forall k, key :: Indexed(index, k, key) <==> Indexed(was, k, key) || (k == kind && key == stage.key);
        todo := todo - {kind};
      }
      forall kind, key
        ensures kind in KindsOf(done + [stage], key) <==> Indexed(index, kind, key)
      {
        KindsOfAppend(done, stage, key);
        assert Indexed(index, kind, key) <==> Indexed(before, kind, key) || (kind in stage.kinds && key == stage.key);
      }
    }

    method UpdateMetrics(a: Activity)
      modifies this`total, this`bySource, this`byKind
      ensures total == old(total) + 1
      ensures bySource == old(bySource)[a.source := At(old(bySource), a.source) + 1]
      ensures byKind == old(byKind)[a.kind := At(old(byKind), a.kind) + 1]
    {
      total := total + 1;
      bySource := bySource[a.source := (if a.source in bySource then bySource[a.source] else 0) + 1];
      byKind := byKind[a.kind := (if a.kind in byKind then byKind[a.kind] else 0) + 1];
    }

    method UpdateFunnel(a: Activity)
      requires IndexValid()
      modifies this`reached
      ensures IndexValid() && reached.Keys == old(reached.Keys)
      ensures forall key :: key in reached ==>
                              reached[key] ==
                              old(reached)[key] + if a.kind in KindsOf(stages, key) && SubjectOf(a).Some?
                                                  then {SubjectOf(a).value} else {}
    {
      if a.kind !in index {
        return;
      }
      var keys, subject := index[a.kind], SubjectOf(a);
      if subject.None? {
        return;
      }
      for i := 0 to |keys|
        invariant reached.Keys == old(reached.Keys)
        invariant forall key :: key in reached ==>
                                  reached[key] == old(reached)[key] + if key in keys[..i] then {subject.value} else {}
      {
        assert keys[..i + 1] == keys[..i] + [keys[i]];
        assert keys[i] in reached by {
          KindsOfMembers(stages, keys[i]);
          assert Indexed(index, a.kind, keys[i]);
        }
        reached := reached[keys[i] := reached[keys[i]] + {subject.value}];
      }
      assert keys[..|keys|] == keys;
    }

    method Record(a: Activity)
      requires Valid()
      modifies this
      ensures Valid() && log == old(log) + [a]
    {
      log := log + [a];
      UpdateMetrics(a);
      UpdateFunnel(a);
      assert log[..|log| - 1] == old(log);
      forall key | key in reached ensures reached[key] == Subjects(log, KindsOf(stages, key)) {
        SubjectsAppend(old(log), a, KindsOf(stages, key));
      }
    }

    /** Per stage: subjects that reached it, and their share of those that reached the first stage. */
    method Report() returns (report: seq<StageReport>)
      requires Valid()
      ensures report == ScanReport(log, stages)
    {
      report := [];
      if stages == [] {
        return;
      }
      assert stages[0] in stages;
      var first := |reached[stages[0].key]|;
      for i := 0 to |stages|
        invariant |report| == i
        invariant forall j :: 0 <= j < i ==> report[j] == ScanStage(log, stages, j)
      {
        assert stages[i] in stages;
        var count := |reached[stages[i].key]|;
        report := report + [StageReport(stages[i].key, count, Share(count, first))];
      }
    }
  }

  datatype StageReport = StageReport(key: string, count: nat, conversion: Option<real>)

  function Share(count: nat, first: nat): (r: Option<real>)
    ensures r.None? <==> first == 0
    ensures r.Some? ==> r.value * first as real == count as real
  {
    if first == 0 then None else Some(count as real / first as real)
  }

  /** The funnel of a full scan. */
  function ScanStage(log: seq<Activity>, stages: seq<Stage>, i: nat): StageReport
    requires i < |stages|
  {
    var count := |Subjects(log, KindsOf(stages, stages[i].key))|;
    var first := |Subjects(log, KindsOf(stages, stages[0].key))|;
    StageReport(stages[i].key, count, Share(count, first))
  }

  function ScanReport(log: seq<Activity>, stages: seq<Stage>): seq<StageReport> {
    seq(|stages|, i requires 0 <= i < |stages| => ScanStage(log, stages, i))
  }

  ghost predicate IndexOf(stages: seq<Stage>, index: map<string, seq<string>>) {
    && (forall kind, key :: kind in KindsOf(stages, key) <==> Indexed(index, kind, key))
    && (forall kind :: kind in index ==> index[kind] != [])
  }

  predicate Indexed(index: map<string, seq<string>>, kind: string, key: string) {
    kind in index && key in index[kind]
  }

  lemma {:induction false} KindsOfAppend(stages: seq<Stage>, stage: Stage, key: string)
    ensures KindsOf(stages + [stage], key) == KindsOf(stages, key) + if stage.key == key then stage.kinds else {}
  {
    if stages == [] {
      assert (stages + [stage])[1..] == [];
    } else {
      assert (stages + [stage])[1..] == stages[1..] + [stage];
      KindsOfAppend(stages[1..], stage, key);
    }
  }

  /**
   What a stage's own scan is worth: the reached set of stage i is the subjects of its own
   kinds, for every log, iff the stages sharing its key add no kinds of their own.
   */
  lemma StageScanIff(stages: seq<Stage>, i: nat)
    requires i < |stages|
    ensures (forall log :: Subjects(log, KindsOf(stages, stages[i].key)) == Subjects(log, stages[i].kinds))
            <==> KindsOf(stages, stages[i].key) == stages[i].kinds
  {
    var all, own := KindsOf(stages, stages[i].key), stages[i].kinds;
    KindsOfMembers(stages, stages[i].key);
    assert own <= all;
    if all != own {
      var kind :| kind in all && kind !in own;
      var log := [Activity("", kind, Some("subject"), None, None, None)];
      assert SubjectOf(log[0]) == Some("subject");
      assert "subject" in Subjects(log, all) && "subject" !in Subjects(log, own);
    }
  }
}
