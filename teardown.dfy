/**
 * The handles of createAndTestDb and the close function it returns.
 *
 * createAndTestDb opens parallelSelects read-only handles one after the
 * other, then returns a closure that closes them in the order they were
 * opened and then closes the write handle, returning the first error.
 * The selects each reader runs in its own goroutine are not part of this
 * module.
 */
module Teardown {
  import opened Engine
  import opened Seqs

  /** What opening the readers gives: the handles in open order, or the index of the open that failed. */
  datatype OpenResult = Opened(readers: seq<Handle>) | OpenFailed(index: nat)

  /** What the close function returns: nil, or the error of the handle at `index` in Handles(). */
  datatype CloseResult = Closed | CloseFailed(index: nat)

  /** The loop of createAndTestDb that opens the read-only handles: the k-th sql.Open succeeds when
      `opens(k)`, and the handle it gives is served by the engine `engine(k)`. */
  method OpenReaders(parallelSelects: int, opens: nat -> bool, engine: nat -> ((seq<Call>, Call) -> bool))
    returns (r: OpenResult)
    ensures r.Opened? <==> forall k :: 0 <= k < parallelSelects ==> opens(k)
    ensures r.Opened? ==> |r.readers| == Max0(parallelSelects)
    ensures r.Opened? ==> forall k :: 0 <= k < |r.readers| ==> r.readers[k].respond == engine(k) && r.readers[k].log == []
    ensures r.Opened? ==> forall a, b :: 0 <= a < b < |r.readers| ==> r.readers[a] != r.readers[b]
    ensures r.Opened? ==> forall k :: 0 <= k < |r.readers| ==> fresh(r.readers[k])
    ensures r.OpenFailed? ==> r.index < parallelSelects && !opens(r.index) && forall k :: 0 <= k < r.index ==> opens(k)
  {
    var readers: seq<Handle> := [];
    var i := 0;
    while i < parallelSelects
      invariant 0 <= i == |readers| <= Max0(parallelSelects)
      invariant forall k :: 0 <= k < i ==> opens(k)
      invariant forall k :: 0 <= k < i ==> readers[k].respond == engine(k) && readers[k].log == []
      invariant forall a, b :: 0 <= a < b < i ==> readers[a] != readers[b]
      invariant forall k :: 0 <= k < i ==> fresh(readers[k])
    {
      if !opens(i) {
        return OpenFailed(i);
      }
      var h := new Handle(engine(i));
      readers := readers + [h];
      i := i + 1;
    }
    return Opened(readers);
  }

  function Max0(n: int): nat
  {
    if n < 0 then 0 else n
  }

  /** The handles the close function captures: the read-only handles, in open order, and the writer. */
  class Bundle {
    const readers: seq<Handle>
    const writer: Handle

    constructor (readers: seq<Handle>, writer: Handle)
      ensures this.readers == readers && this.writer == writer
    {
      this.readers := readers;
      this.writer := writer;
    }

    /** The handles in the order the close function closes them. */
    function Handles(): (hs: seq<Handle>)
      ensures |hs| == |readers| + 1 && hs[|readers|] == writer
      ensures forall k :: 0 <= k < |readers| ==> hs[k] == readers[k]
    {
      readers + [writer]
    }

    /** No handle occurs twice. */
    predicate Distinct()
    {
      forall a, b :: 0 <= a < b < |Handles()| ==> Handles()[a] != Handles()[b]
    }

    /** Whether each handle's Close would succeed, given the calls it has received so far. */
    function Verdicts(): (v: seq<bool>)
      reads set h | h in Handles()
      ensures |v| == |Handles()|
    {
      seq(|Handles()|, k requires 0 <= k < |Handles()| reads set h | h in Handles() =>
        Handles()[k].respond(Handles()[k].log, Call.Close))
    }

    /** The close function: each reader in order, then the writer; the first failing Close is returned and
        the handles after it are left open. */
    method Close() returns (r: CloseResult)
      requires Distinct()
      modifies set h | h in Handles()
      ensures var k := FirstFalse(old(Verdicts()));
              && r == (if k < |Handles()| then CloseFailed(k) else Closed)
              && forall j :: 0 <= j < |Handles()| ==>
                   Handles()[j].log == old(Handles()[j].log) + if j <= k then [Call.Close] else []
    {
      ghost var v := Verdicts();
      ghost var k := FirstFalse(v);
      var j := 0;
      while j < |readers|
        invariant 0 <= j <= |readers| && j <= k
        invariant forall t :: 0 <= t < |Handles()| ==>
                    Handles()[t].log == old(Handles()[t].log) + if t < j then [Call.Close] else []
      {
        assert Handles()[j] == readers[j] && readers[j].log == old(readers[j].log);
        var ok := readers[j].Invoke(Call.Close);
        if !ok {
          assert !v[j];
          return CloseFailed(j);
        }
        j := j + 1;
      }
      ghost var last := writer.log;
      assert last == old(writer.log) && Handles()[|readers|] == writer;
      var ok := writer.Invoke(Call.Close);
      if !ok {
        assert !v[|readers|];
        return CloseFailed(|readers|);
      }
      return Closed;
    }
  }

  /** createAndTestDb's handles: the writer and, once every reader opened, a bundle that holds
      parallelSelects fresh readers and the writer, each handle once. */
  method OpenBundle(writer: Handle, parallelSelects: int, opens: nat -> bool,
                    engine: nat -> ((seq<Call>, Call) -> bool)) returns (b: Bundle?, failed: OpenResult)
    ensures b == null <==> failed.OpenFailed?
    ensures b != null ==> |b.Handles()| == Max0(parallelSelects) + 1 && b.writer == writer && b.Distinct()
    ensures b != null ==> forall k :: 0 <= k < |b.readers| ==> b.readers[k].respond == engine(k) && b.readers[k].log == []
    ensures failed.OpenFailed? ==> !opens(failed.index) && forall k :: 0 <= k < failed.index ==> opens(k)
  {
    failed := OpenReaders(parallelSelects, opens, engine);
    if failed.OpenFailed? {
      return null, failed;
    }
    b := new Bundle(failed.readers, writer);
    assert forall k :: 0 <= k < |b.readers| ==> b.readers[k] != writer;
  }
}
