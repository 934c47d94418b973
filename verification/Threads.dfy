/** Task threads as the app server lists them; of several entries for one id the latest counts. */
module Threads {
  import opened Prelude

  datatype Thread = Thread(
    id: string,
    name: Option<string>,
    cwd: string,
    projectless: bool,
    parent: Option<string>,
    nickname: Option<string>,
    created: int,
    updated: int,
    path: Option<string>)

  type Index = map<string, Thread>

  /** A thread that belongs to another one is not shown by itself. */
  predicate IsChild(t: Thread) {
    t.parent.Some? || (t.nickname.Some? && t.nickname.value != "")
  }

  function Add(byId: Index, t: Thread): Index {
    if t.id !in byId || byId[t.id].updated <= t.updated then byId[t.id := t] else byId
  }

  function Latest(threads: seq<Thread>): Index {
    if threads == [] then map[] else Add(Latest(threads[..|threads| - 1]), threads[|threads| - 1])
  }

  method IndexThreads(threads: seq<Thread>) returns (byId: Index)
    ensures byId == Latest(threads)
  {
    byId := map[];
    for i := 0 to |threads|
      invariant byId == Latest(threads[..i])
    {
      assert threads[..i + 1][..i] == threads[..i];
      var thread := threads[i];
      if thread.id !in byId || byId[thread.id].updated <= thread.updated { byId := byId[thread.id := thread]; }
    }
    assert threads[..|threads|] == threads;
  }

  /** Entry k is the one that counts: none is later, and of equals it comes last. */
  predicate Wins(threads: seq<Thread>, k: nat) {
    && k < |threads|
    && (forall j | 0 <= j < |threads| && threads[j].id == threads[k].id :: threads[j].updated <= threads[k].updated)
    && (forall j | k < j < |threads| && threads[j].id == threads[k].id :: threads[j].updated < threads[k].updated)
  }

  lemma {:induction false} LatestWins(threads: seq<Thread>, id: string)
    ensures id in Latest(threads) <==> exists t :: t in threads && t.id == id
    ensures id in Latest(threads) ==> exists k: nat :: Wins(threads, k) && threads[k] == Latest(threads)[id] && threads[k].id == id
  {
    if threads != [] {
      var n := |threads| - 1;
      var init, last := threads[..n], threads[n];
      assert threads == init + [last];
      LatestWins(init, id);
      if id in Latest(init) {
        var k: nat :| Wins(init, k) && init[k] == Latest(init)[id] && init[k].id == id;
        assert forall j | 0 <= j < n :: init[j] == threads[j];
        if last.id == id && init[k].updated <= last.updated { assert Wins(threads, n); } else { assert Wins(threads, k); }
      } else if last.id == id {
        assert forall j | 0 <= j < n :: threads[j] in init;
        assert Wins(threads, n);
      }
    }
  }
}
