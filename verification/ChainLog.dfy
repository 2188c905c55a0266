/**
 The reference a job's chain is measured against: the log of the job's arrivals since its chain was
 opened, and the arrivals in that log whose CreateIndex beats everything before them.
 */
module ChainLog {
  import opened Ids
  import opened EvalChains

  /** The i-th arrival is newer than every arrival before it. */
  predicate IsRecord(log: seq<Eval>, i: nat)
    requires i < |log|
  {
    forall j :: 0 <= j < i ==> log[j].info.createIndex < log[i].info.createIndex
  }

  /** The strict left-to-right maxima of a log. */
  function Records(log: seq<Eval>): seq<Eval> {
    if log == [] then []
    else Records(log[..|log| - 1]) + if IsRecord(log, |log| - 1) then [log[|log| - 1]] else []
  }

  function IdsOf(evals: seq<Eval>): (r: seq<Id>)
    ensures |r| == |evals| && forall i :: 0 <= i < |evals| ==> r[i] == evals[i].id
  {
    seq(|evals|, i requires 0 <= i < |evals| => evals[i].id)
  }

  /** The records increase, belong to the log, and the last one is the newest arrival of all. */
  lemma {:induction false} RecordsMeaning(log: seq<Eval>)
    ensures forall i, j :: 0 <= i < j < |Records(log)| ==>
              Records(log)[i].info.createIndex < Records(log)[j].info.createIndex
    ensures forall i :: 0 <= i < |Records(log)| ==> Records(log)[i] in log
    ensures log != [] ==> Records(log) != []
    ensures forall i :: 0 <= i < |log| ==>
              log[i].info.createIndex <= Records(log)[|Records(log)| - 1].info.createIndex
  {
    if log != [] {
      RecordsMeaning(log[..|log| - 1]);
      assert forall i :: 0 <= i < |log| - 1 ==> log[i] == log[..|log| - 1][i];
    }
  }

  /** One more arrival extends the records exactly when it beats the last one. */
  lemma RecordsAppend(log: seq<Eval>, e: Eval)
    requires log != []
    ensures Records(log) != []
    ensures Records(log + [e]) == Records(log) +
              if Records(log)[|Records(log)| - 1].info.createIndex < e.info.createIndex then [e] else []
  {
    RecordsMeaning(log);
    var log' := log + [e];
    var last := Records(log)[|Records(log)| - 1];
    assert log'[..|log|] == log;
    var k :| 0 <= k < |log| && log[k] == last;
    assert log'[k] == last;
    assert IsRecord(log', |log|) <==> last.info.createIndex < e.info.createIndex;
  }

  /** The latest arrival of the eval. */
  function Latest(log: seq<Eval>, id: Id): Option<Eval> {
    if log == [] then None
    else if log[|log| - 1].id == id then Some(log[|log| - 1])
    else Latest(log[..|log| - 1], id)
  }

  lemma LatestAppend(log: seq<Eval>, e: Eval, id: Id)
    ensures Latest(log + [e], id) == if e.id == id then Some(e) else Latest(log, id)
  {
    assert (log + [e])[..|log|] == log;
  }

  ghost predicate NoneAfter(log: seq<Eval>, i: int, id: Id) {
    forall j :: 0 <= i < j < |log| ==> log[j].id != id
  }

  /** It is an arrival of the eval, and none follows it. */
  lemma {:induction false} LatestMeaning(log: seq<Eval>, id: Id)
    ensures match Latest(log, id)
            case None => forall i :: 0 <= i < |log| ==> log[i].id != id
            case Some(e) => exists i :: 0 <= i < |log| && log[i] == e && e.id == id && NoneAfter(log, i, id)
  {
    if log != [] && log[|log| - 1].id != id {
      var front := log[..|log| - 1];
      LatestMeaning(front, id);
      if Latest(front, id).Some? {
        var i :| 0 <= i < |front| && front[i] == Latest(front, id).value && NoneAfter(front, i, id);
        assert log[i] == front[i];
        assert forall j :: i < j < |front| ==> log[j] == front[j];
        assert NoneAfter(log, i, id);
      }
    } else if log != [] {
      assert NoneAfter(log, |log| - 1, id);
    }
  }
}
