/** What concurrent runs do to the files: the store behaves like a plain map of blocks on
    which every mapping and every removal of one block takes effect at once. */
module Timeline {
  import opened Model
  import opened Steps
  import opened Invariant
  import opened Accounting
  import opened Protocol
  import opened Safety
  import opened Quiescence

  /** The block that an action assigns in the plain map, and its new content. */
  function Assigns(s: State, a: Action): Option<(Key, Option<Block>)>
    requires a.tid < |s.ts|
  {
    if !a.Step? then None else
    match s.ts[a.tid]
    case Writer(w) =>
      if w.phase.Mapping? && w.pos < |w.plan| && w.pos < |w.buf|
      then Some((Key(w.path, w.start + w.pos), Some(w.buf[w.pos]))) else None
    case Remover(r) => if r.pos < r.end then Some((Key(r.path, r.pos), None)) else None
    case _ => None
  }

  function ContentOf(s: State, k: Key): Option<Block> { ContentAt(s.sh, k) }

  ghost predicate InRun(run: Run, n: nat) {
    && n <= |run.acts| && |run.states| == |run.acts| + 1
    && forall i: nat :: i < |run.acts| ==> run.acts[i].tid < |run.states[i].ts|
  }

  /** Block k of the plain map after the first n actions: what the last of them that assigned
      it stored there, and its content in the first state if none did. */
  ghost function PlainAt(run: Run, n: nat, k: Key): Option<Block>
    requires InRun(run, n)
  {
    if n == 0 then ContentOf(run.states[0], k)
    else
      var e := Assigns(run.states[n - 1], run.acts[n - 1]);
      if e.Some? && e.value.0 == k then e.value.1 else PlainAt(run, n - 1, k)
  }

  /** A mapped block has a content, which hashes to what the index shows. */
  lemma {:induction false} MappedHasContent(env: Env, s: State, k: Key)
    requires Inv(env, s)
    ensures k in s.sh.fileToMaster <==> VisibleAt(s.sh, k).Some?
    ensures k in s.sh.fileToMaster <==> ContentOf(s, k).Some?
    ensures k in s.sh.fileToMaster ==>
              var b := ContentOf(s, k).value; env.inPlay(b) && env.hash(b) == VisibleAt(s.sh, k).value
  {
    assert FileLinked(s.sh, k);
    if k in s.sh.fileToMaster { assert BackedAt(env, s.sh, s.sh.fileToMaster[k]); }
  }

  /** An action changes the content of a block only by assigning it. */
  lemma {:induction false} ContentStep(env: Env, repaired: bool, s: State, a: Action, k: Key)
    requires Inv(env, s) && Enabled(env, s, a) && NoLostDupStep(repaired, s, a) && CollisionFree(env)
    ensures var e := Assigns(s, a);
            ContentOf(Next(env, repaired, s, a), k) == if e.Some? && e.value.0 == k then e.value.1 else ContentOf(s, k)
  {
    var s', e := Next(env, repaired, s, a), Assigns(s, a);
    VisibleStep(env, repaired, s, a, k);
    NextInv(env, repaired, s, a);
    MappedHasContent(env, s, k);
    MappedHasContent(env, s', k);
    if e.Some? && e.value.1.Some? { AssignedInPlay(env, s, a); }
  }

  lemma {:induction false} AssignedInPlay(env: Env, s: State, a: Action)
    requires Inv(env, s) && a.tid < |s.ts| && Assigns(s, a).Some? && Assigns(s, a).value.1.Some?
    ensures env.inPlay(Assigns(s, a).value.1.value)
  {
    var w := s.ts[a.tid].job;
    assert ThreadAt(env, s, a.tid);
    assert w.buf[w.pos] in w.buf;
  }

  /** Refinement over all interleavings: in every state of a run every block of every file has
      the content that the plain map has. */
  lemma {:induction false} RunRefines(env: Env, repaired: bool, run: Run, n: nat, k: Key)
    requires IsRun(env, repaired, run) && NoLostDups(repaired, run) && Inv(env, run.states[0]) && CollisionFree(env)
    requires n <= |run.acts|
    ensures InRun(run, n) && ContentOf(run.states[n], k) == PlainAt(run, n, k)
  {
    forall i: nat | i < |run.acts| ensures run.acts[i].tid < |run.states[i].ts| {
      assert MoveAt(env, repaired, run, i);
    }
    if n > 0 {
      RunRefines(env, repaired, run, n - 1, k);
      RunInv(env, repaired, run, n - 1);
      assert MoveAt(env, repaired, run, n - 1) && GuardedAt(repaired, run, n - 1);
      ContentStep(env, repaired, run.states[n - 1], run.acts[n - 1], k);
    }
  }

  /** A read delivers the content that the plain map had when it looked the block up, if the
      slot stays published until the fetch. */
  lemma {:induction false} ReadSeesPlain(
      env: Env, repaired: bool, run: Run, i: nat, j: nat, key: Key, r: Reading, n: nat, ch: Choice)
    requires IsRun(env, repaired, run) && NoLostDups(repaired, run) && Inv(env, run.states[0]) && CollisionFree(env)
    requires i <= j <= |run.acts| && key in run.states[i].sh.fileToMaster
    requires var sh := run.states[i].sh;
             var p := sh.fileToMaster[key];
             && p in sh.heap && StaysPublished(run, i, j, sh.heap[p].slot)
             && r.looked && n < |r.snap| && r.snap[n] == sh.heap[p].slot && ch.index == n
    ensures InRun(run, i) && PlainAt(run, i, key).Some?
    ensures ReaderStep(run.states[j].sh, r, ch)
            == Moved(run.states[j].sh, Reader(r.(got := r.got[n := PlainAt(run, i, key).value])))
  {
    RunRefines(env, repaired, run, i, key);
    ReadNonInterference(env, repaired, run, i, j, key, r, n, ch);
  }
}
