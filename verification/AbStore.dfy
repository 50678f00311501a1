/**
 * The two-slot transaction shared by the credential store and the anti-rollback counter.
 * A slot either fails verification or holds a generation and a value; a write goes to the
 * slot that is not current and may be cut short anywhere.
 */
module AbStore {
  import opened Bytes

  datatype Slot<T> = Unverified | Verified(generation: nat, value: T)
  datatype Pair<T> = Pair(first: Slot<T>, second: Slot<T>)
  datatype Choice = Neither | Ambiguous | First | Second

  /** Which slot counts: `latest_slot` and the selection in `read_nvram`. */
  function Latest<T>(p: Pair<T>): Choice {
    if p.first.Unverified? && p.second.Unverified? then Neither
    else if p.second.Unverified? then First
    else if p.first.Unverified? then Second
    else if p.first.generation == p.second.generation then Ambiguous
    else if p.first.generation > p.second.generation then First else Second
  }

  /** The slot in force, if there is one. */
  function Current<T>(p: Pair<T>): Slot<T> {
    match Latest(p)
    case First => p.first
    case Second => p.second
    case _ => Unverified
  }

  function CurrentValue<T>(p: Pair<T>): Option<T> {
    if Current(p).Verified? then Some(Current(p).value) else None
  }

  function Generation<T>(p: Pair<T>): nat {
    if Current(p).Verified? then Current(p).generation else 0
  }

  /** The inactive slot, which the next write goes to. */
  function TargetIsSecond<T>(p: Pair<T>): bool {
    Latest(p) == First
  }

  function Replace<T>(p: Pair<T>, slot: Slot<T>): Pair<T> {
    if TargetIsSecond(p) then p.(second := slot) else p.(first := slot)
  }

  function Target<T>(p: Pair<T>): Slot<T> {
    if TargetIsSecond(p) then p.second else p.first
  }

  /** What a finished write of `value` leaves. */
  function Committed<T>(p: Pair<T>, value: T): Pair<T> {
    Replace(p, Verified(Generation(p) + 1, value))
  }

  /** What a write of `value` may leave when it is cut short at any point. */
  predicate Attempted<T(==)>(p: Pair<T>, q: Pair<T>, value: T) {
    q == p || q == Replace(p, Unverified) || q == Committed(p, value)
  }

  /** Two verified slots are exactly one generation apart. */
  predicate Sound<T>(p: Pair<T>) {
    p.first.Verified? && p.second.Verified? ==>
      p.first.generation == p.second.generation + 1 || p.second.generation == p.first.generation + 1
  }

  /** One write, finished or not: sound stays sound and the value in force is the old or the new one. */
  lemma AttemptIsAtomic<T>(p: Pair<T>, q: Pair<T>, value: T)
    requires Sound(p) && Attempted(p, q, value)
    ensures Sound(q) && Latest(q) != Ambiguous
    ensures q == Committed(p, value) ==> CurrentValue(q) == Some(value) && Generation(q) == Generation(p) + 1
    ensures q != Committed(p, value) ==> CurrentValue(q) == CurrentValue(p) && Generation(q) == Generation(p)
  {
  }

  /** A write operation of a run: what it tried to store, whether it reported success, what it left. */
  datatype Operation<T> = Operation(value: T, acknowledged: bool, left: Pair<T>)

  predicate Step<T(==)>(p: Pair<T>, op: Operation<T>) {
    if op.acknowledged then op.left == Committed(p, op.value) else Attempted(p, op.left, op.value)
  }

  function Final<T>(p: Pair<T>, run: seq<Operation<T>>): Pair<T> {
    if run == [] then p else run[|run| - 1].left
  }

  predicate IsRun<T(==)>(p: Pair<T>, run: seq<Operation<T>>)
    decreases |run|
  {
    run == [] || (IsRun(p, run[..|run| - 1]) && Step(Final(p, run[..|run| - 1]), run[|run| - 1]))
  }

  lemma RunExtends<T>(p: Pair<T>, run: seq<Operation<T>>, op: Operation<T>)
    requires IsRun(p, run) && Step(Final(p, run), op)
    ensures IsRun(p, run + [op]) && Final(p, run + [op]) == op.left
  {
    assert (run + [op])[..|run|] == run;
  }

  /**
   * Atomicity and durability over whole runs: whatever operations were cut short, the value
   * in force is that of some operation no later one of which was acknowledged (or the initial
   * one if there is none); it is never ambiguous, and the generation never goes back.
   */
  lemma {:induction false} RunIsDurable<T>(p: Pair<T>, run: seq<Operation<T>>) returns (source: int)
    requires Sound(p) && IsRun(p, run)
    ensures Sound(Final(p, run)) && Latest(Final(p, run)) != Ambiguous
    ensures Generation(p) <= Generation(Final(p, run))
    ensures -1 <= source < |run|
    ensures CurrentValue(Final(p, run)) == if source < 0 then CurrentValue(p) else Some(run[source].value)
    ensures forall later :: source < later < |run| ==> !run[later].acknowledged
    decreases |run|
  {
    if run == [] {
      source := -1;
    } else {
      var earlier, last := run[..|run| - 1], run[|run| - 1];
      var s := RunIsDurable(p, earlier);
      AttemptIsAtomic(Final(p, earlier), last.left, last.value);
      source := if last.left == Committed(Final(p, earlier), last.value) then |run| - 1 else s;
    }
  }
}
