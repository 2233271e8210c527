/** How `embed` turns its optional `batch` argument into the step of
    `range(0, len(texts), batch)`, and the slices that range visits. */
module Batching {
  import opened Results
  import opened Seqs

  const BATCH_NOT_INT: string := "batch must be an integer"
  const BATCH_NOT_POSITIVE: string := "batch must be a positive integer"
  const RANGE_STEP_ZERO: string := "range() arg 3 must not be zero"

  /** The Python value passed as `batch`. `bool` is a subclass of `int`, so
      `isinstance(True, int)` holds and `True`/`False` act as 1/0; `PyOther` is
      any other value (a float, a string, ...). */
  datatype PyArg = PyNone | PyInt(i: int) | PyBool(b: bool) | PyOther

  /** The integer an int-like `batch` stands for. */
  function IntOf(batch: PyArg): int
    requires batch.PyInt? || batch.PyBool?
  {
    match batch
    case PyInt(i) => i
    case PyBool(b) => if b then 1 else 0
  }

  /** The step the loop uses, and whether the oversize warning was printed. */
  datatype Plan = Plan(step: nat, warned: bool)

  /** The validation at the top of `embed`: check, clamp, or default `batch`. */
  function Resolve(batch: PyArg, n: nat): (r: Result<Plan>)
    // a non-int is a TypeError, a non-positive int a ValueError
    ensures batch.PyOther? <==> r == Err(TypeError(BATCH_NOT_INT))
    ensures r == Err(ValueError(BATCH_NOT_POSITIVE)) <==>
              (batch.PyInt? || batch.PyBool?) && IntOf(batch) <= 0
    // None and a positive int (or True) are accepted
    ensures r.Ok? <==> batch.PyNone? || ((batch.PyInt? || batch.PyBool?) && IntOf(batch) > 0)
    // otherwise the step never exceeds the number of texts ...
    ensures r.Ok? ==> r.value.step <= n
    // ... is positive whenever there is a text ...
    ensures r.Ok? && n > 0 ==> r.value.step > 0
    // ... and is the given batch, cut down to the number of texts
    ensures r.Ok? && (batch.PyInt? || batch.PyBool?) ==> r.value.step == Min(IntOf(batch), n)
    // ... and the warning is printed exactly when a too-large batch is clamped
    ensures r.Ok? ==> (r.value.warned <==> (batch.PyInt? || batch.PyBool?) && IntOf(batch) > n)
    // an omitted batch means the whole list
    ensures batch.PyNone? ==> r == Ok(Plan(n, false))
  {
    match batch
    case PyNone => Ok(Plan(n, false))
    case PyOther => Err(TypeError(BATCH_NOT_INT))
    case _ => Clamp(IntOf(batch), n)
  }

  function Clamp(b: int, n: nat): Result<Plan> {
    if b <= 0 then Err(ValueError(BATCH_NOT_POSITIVE))
    else if b > n then Ok(Plan(n, true))
    else Ok(Plan(b, false))
  }

  /** An oversized batch resolves to the same step as `batch = len(texts)` and as an
      omitted batch; only the warning differs. */
  lemma ClampMatchesWholeList(k: int, n: nat)
    requires k > n
    ensures Resolve(PyInt(k), n) == Ok(Plan(n, true))
    ensures Resolve(PyInt(n), n) == (if n == 0 then Err(ValueError(BATCH_NOT_POSITIVE)) else Ok(Plan(n, false)))
    ensures Resolve(PyNone, n) == Ok(Plan(n, false))
  {
  }

  /** `texts[i:i + step]` with Python's clamping of the end index. */
  function Slice<T>(texts: seq<T>, i: nat, step: nat): (s: seq<T>)
    requires i <= |texts|
    ensures |s| == Min(step, |texts| - i)
    ensures forall k :: 0 <= k < |s| ==> s[k] == texts[i + k]
  {
    texts[i..Min(i + step, |texts|)]
  }

  /** The slices `texts[i:i + step]` for `i` in `range(start, len(texts), step)`. */
  function Chunks<T>(texts: seq<T>, step: nat, start: nat): seq<seq<T>>
    requires step > 0
    decreases |texts| - start
  {
    if start >= |texts| then []
    else [Slice(texts, start, step)] + Chunks(texts, step, start + step)
  }

  function Flatten<T>(chunks: seq<seq<T>>): seq<T> {
    if |chunks| == 0 then [] else chunks[0] + Flatten(chunks[1..])
  }

  /** The slices are consecutive and concatenate back to the texts. */
  lemma {:induction false} ChunksCover<T>(texts: seq<T>, step: nat, start: nat)
    requires step > 0
    requires start <= |texts|
    ensures Flatten(Chunks(texts, step, start)) == texts[start..]
    decreases |texts| - start
  {
    if start < |texts| {
      var next := Min(start + step, |texts|);
      ChunksCover(texts, step, next);
      if start + step <= |texts| {
        assert Chunks(texts, step, start) == [texts[start..next]] + Chunks(texts, step, next);
      } else {
        assert Chunks(texts, step, start + step) == [];
        assert Chunks(texts, step, next) == [];
      }
      assert texts[start..] == texts[start..next] + texts[next..];
    }
  }

  /** No slice is empty, every slice has `step` items except possibly the last, which
      has at most `step`. */
  predicate FullChunks<T>(cs: seq<seq<T>>, step: nat) {
    forall k :: 0 <= k < |cs| ==> 0 < |cs[k]| <= step && (k < |cs| - 1 ==> |cs[k]| == step)
  }

  lemma {:induction false} ChunkSizes<T>(texts: seq<T>, step: nat, start: nat)
    requires step > 0
    ensures FullChunks(Chunks(texts, step, start), step)
    decreases |texts| - start
  {
    if start < |texts| {
      ChunkSizes(texts, step, start + step);
      var cs := Chunks(texts, step, start);
      var rest := Chunks(texts, step, start + step);
      assert cs == [Slice(texts, start, step)] + rest;
      forall k | 0 <= k < |cs|
        ensures 0 < |cs[k]| <= step && (k < |cs| - 1 ==> |cs[k]| == step)
      {
        if k == 0 {
          assert cs[0] == texts[start..Min(start + step, |texts|)];
          if |cs| > 1 {
            assert |rest| > 0;
            assert start + step < |texts|;
          }
        } else {
          assert cs[k] == rest[k - 1];
        }
      }
    }
  }

  /** Visiting the slice at `i` moves the loop one slice further along `Chunks`. */
  lemma ChunksVisit<T>(texts: seq<T>, step: nat, i: nat, visited: seq<seq<T>>)
    requires step > 0 && i < |texts|
    requires Chunks(texts, step, 0) == visited + Chunks(texts, step, i)
    ensures Chunks(texts, step, 0) == (visited + [Slice(texts, i, step)]) + Chunks(texts, step, i + step)
  {
    assert Chunks(texts, step, i) == [Slice(texts, i, step)] + Chunks(texts, step, i + step);
  }

  /** `embed` wraps the range in a progress bar exactly when `step != len(texts)`; for
      a non-empty list with a valid step that is exactly when there is more than one
      slice, i.e. when chunking is in effect. */
  lemma ProgressIffSeveralChunks<T>(texts: seq<T>, step: nat)
    requires 0 < step <= |texts|
    ensures step != |texts| <==> |Chunks(texts, step, 0)| > 1
  {
    assert Chunks(texts, step, 0) == [Slice(texts, 0, step)] + Chunks(texts, step, step);
    if step < |texts| {
      assert Chunks(texts, step, step) == [Slice(texts, step, step)] + Chunks(texts, step, step + step);
    }
  }
}
