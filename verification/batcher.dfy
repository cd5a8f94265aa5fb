/** The vertex batcher of the immediate-mode renderer: one shared vertex array, a
    pending count, and a flush that hands the pending vertices to the device as one
    primitive list. The device is a recorder: every submission it receives is kept
    in `submitted`, in order. */
module Batcher {
  import opened Base

  /** Capacity of the shared vertex array (the engine's `MAX_VERTICES`). */
  const MaxVertices: nat := 32 * 1024

  datatype TexCoord = TexCoord(u: real, v: real)

  datatype Color = Color(r: real, g: real, b: real, a: real)

  /** A rotation is not computed: a vertex keeps its unrotated position and records
      the centre and angle it is turned by, or that it is not turned at all. */
  datatype Turn = Upright | Turned(cx: real, cy: real, angle: real)

  datatype Vertex = Vertex(x: real, y: real, tex: TexCoord, color: Color, turn: Turn)

  /** What a slot of the array holds before anything was written to it. */
  const Blank: Vertex := Vertex(0.0, 0.0, TexCoord(0.0, 0.0), Color(0.0, 0.0, 0.0, 0.0), Upright)

  /** The primitive list a flush submits: triangles or quads, per configuration. */
  datatype Topology = TriangleList | QuadList

  datatype Submission = Submission(topology: Topology, vertices: seq<Vertex>)

  /** The array is a map from index to vertex so that a write past the capacity is
      representable; a flush does not clear it, so stale vertices stay behind. */
  datatype Batch = Batch(slots: map<int, Vertex>, count: nat, renderEnable: bool, submitted: seq<Submission>)

  function Slot(slots: map<int, Vertex>, i: int): Vertex {
    if i in slots then slots[i] else Blank
  }

  /** The renderer's state at construction: nothing pending, rendering enabled. */
  function Empty(): (b: Batch)
    ensures b.count == 0 && b.renderEnable && b.submitted == []
  {
    Batch(map[], 0, true, [])
  }

  /** The vertices a flush would submit now: the first `count` slots. */
  function Pending(b: Batch): (vs: seq<Vertex>)
    ensures |vs| == b.count
    ensures forall i :: 0 <= i < b.count ==> vs[i] == Slot(b.slots, i)
  {
    seq(b.count, i => Slot(b.slots, i))
  }

  function SubmittedCount(subs: seq<Submission>): nat {
    if subs == [] then 0 else SubmittedCount(subs[..|subs| - 1]) + |subs[|subs| - 1].vertices|
  }

  lemma SubmittedCountAppend(subs: seq<Submission>, s: Submission)
    ensures SubmittedCount(subs + [s]) == SubmittedCount(subs) + |s.vertices|
  {
    assert (subs + [s])[..|subs|] == subs;
  }

  /** Every vertex the batch has taken in so far: those submitted and those pending. */
  function Accepted(b: Batch): nat {
    SubmittedCount(b.submitted) + b.count
  }

  /** The vertices of the submissions, one draw call after another. */
  function SubmittedVertices(subs: seq<Submission>): (vs: seq<Vertex>)
    ensures |vs| == SubmittedCount(subs)
  {
    if subs == [] then [] else SubmittedVertices(subs[..|subs| - 1]) + subs[|subs| - 1].vertices
  }

  /** The vertex stream the device has received or will receive at the next
      flush: every submitted vertex in order, then the pending ones. */
  function Stream(b: Batch): (vs: seq<Vertex>)
    ensures |vs| == Accepted(b)
  {
    SubmittedVertices(b.submitted) + Pending(b)
  }

  /** `Flush`: nothing happens when no vertex is pending; otherwise the pending
      vertices are submitted when rendering is enabled and discarded when it is not,
      and the count is zero either way. */
  function Flush(b: Batch, topology: Topology): (r: Batch)
    ensures b.count == 0 ==> r == b
    ensures r.count == 0 && r.slots == b.slots && r.renderEnable == b.renderEnable
    ensures b.count > 0 && b.renderEnable ==> r.submitted == b.submitted + [Submission(topology, Pending(b))]
    ensures !b.renderEnable ==> r.submitted == b.submitted
    ensures b.renderEnable ==> Accepted(r) == Accepted(b)
    ensures b.renderEnable ==> Stream(r) == Stream(b)
  {
    if b.count == 0 then b
    else if b.renderEnable then
      SubmittedCountAppend(b.submitted, Submission(topology, Pending(b)));
      var subs := b.submitted + [Submission(topology, Pending(b))];
      assert subs[..|subs| - 1] == b.submitted;
      b.(count := 0, submitted := b.submitted + [Submission(topology, Pending(b))])
    else b.(count := 0)
  }

  /** `AddVertices`: the count grows by `n`, and the batch is flushed as soon as one
      more group of `n` vertices would reach the capacity. */
  function AddVertices(b: Batch, n: nat, topology: Topology): (r: Batch)
    ensures r.count == 0 || r.count + n < MaxVertices
    ensures b.count + n + n < MaxVertices ==> r == b.(count := b.count + n)
    ensures b.count + n + n >= MaxVertices ==> r.count == 0
    ensures b.count + n + n >= MaxVertices && b.count + n > 0 && b.renderEnable ==>
              r.submitted == b.submitted + [Submission(topology, seq(b.count + n, i => Slot(b.slots, i)))]
    ensures r.slots == b.slots && r.renderEnable == b.renderEnable
    ensures b.renderEnable ==> Accepted(r) == Accepted(b) + n
    ensures b.renderEnable ==> Stream(r) == Stream(b.(count := b.count + n))
  {
    var grown := b.(count := b.count + n);
    if grown.count + n >= MaxVertices then Flush(grown, topology) else grown
  }

  /** Writes `vs` into consecutive slots starting at `at`; the count is untouched. */
  function Write(b: Batch, at: int, vs: seq<Vertex>): (r: Batch)
    ensures forall j :: 0 <= j < |vs| ==> Slot(r.slots, at + j) == vs[j]
    ensures forall k :: !(at <= k < at + |vs|) ==> Slot(r.slots, k) == Slot(b.slots, k)
    ensures r.count == b.count && r.renderEnable == b.renderEnable && r.submitted == b.submitted
    decreases |vs|
  {
    if vs == [] then b
    else
      var r := Write(b.(slots := b.slots[at := vs[0]]), at + 1, vs[1..]);
      r
  }

  /** Writing `vs` at the pending count and counting it makes the pending
      vertices the old ones followed by `vs`. */
  lemma PendingWrite(b: Batch, vs: seq<Vertex>)
    ensures Pending(Write(b, b.count, vs).(count := b.count + |vs|)) == Pending(b) + vs
  {
    var w := Write(b, b.count, vs).(count := b.count + |vs|);
    forall i | 0 <= i < b.count + |vs|
      ensures Pending(w)[i] == (Pending(b) + vs)[i]
    {
      if i >= b.count {
        assert Slot(w.slots, b.count + (i - b.count)) == vs[i - b.count];
      }
    }
  }

  /** Room for one more group of `n` vertices after the pending ones. */
  predicate Headroom(b: Batch, n: nat) {
    b.count == 0 || b.count + n < MaxVertices
  }

  function AddAll(b: Batch, ns: seq<nat>, topology: Topology): Batch
    decreases |ns|
  {
    if ns == [] then b else AddAll(AddVertices(b, ns[0], topology), ns[1..], topology)
  }

  function Sum(ns: seq<nat>): nat {
    if ns == [] then 0 else ns[0] + Sum(ns[1..])
  }

  /** Whatever the sizes added, every vertex ends up either submitted or pending:
      nothing is lost or duplicated by the early flushes. */
  lemma {:induction false} AcceptedAddsUp(b: Batch, ns: seq<nat>, topology: Topology)
    requires b.renderEnable
    ensures Accepted(AddAll(b, ns, topology)) == Accepted(b) + Sum(ns)
    decreases |ns|
  {
    if ns != [] {
      AcceptedAddsUp(AddVertices(b, ns[0], topology), ns[1..], topology);
    }
  }

  lemma {:induction false} AddAllExtends(b: Batch, ns: seq<nat>, topology: Topology)
    ensures b.submitted <= AddAll(b, ns, topology).submitted
    decreases |ns|
  {
    if ns != [] {
      AddAllExtends(AddVertices(b, ns[0], topology), ns[1..], topology);
    }
  }

  /** The submissions made after the first `k` of `subs`. */
  predicate SubmissionsAtMost(subs: seq<Submission>, k: nat, bound: nat) {
    forall i :: k <= i < |subs| ==> |subs[i].vertices| <= bound
  }

  /** When every group has the same size `n`, the early flush keeps each group's
      slots inside the array and no flush submits more than the capacity. */
  lemma {:induction false} SameSizeGroupsFit(b: Batch, n: nat, ns: seq<nat>, topology: Topology)
    requires n <= MaxVertices
    requires Headroom(b, n)
    requires forall i :: 0 <= i < |ns| ==> ns[i] == n
    ensures b.count + n <= MaxVertices
    ensures |AddAll(b, ns, topology).submitted| >= |b.submitted|
    ensures SubmissionsAtMost(AddAll(b, ns, topology).submitted, |b.submitted|, MaxVertices)
    ensures Headroom(AddAll(b, ns, topology), n)
    decreases |ns|
  {
    if ns != [] {
      var b' := AddVertices(b, n, topology);
      SameSizeGroupsFit(b', n, ns[1..], topology);
      var r := AddAll(b', ns[1..], topology);
      AddAllExtends(b', ns[1..], topology);
      forall i | |b.submitted| <= i < |r.submitted|
        ensures |r.submitted[i].vertices| <= MaxVertices
      {
        if i >= |b'.submitted| {
        } else {
          assert |b'.submitted| == |b.submitted| + 1 && b'.submitted[i].vertices == Pending(b.(count := b.count + n));
        }
      }
    }
  }

  /** The headroom is reserved for a group the size of the last one only: after
      three-vertex groups the count can sit five below the capacity, and the next
      six-vertex group then writes one slot past the end of the array. */
  lemma LargerGroupOverruns()
    ensures var b := Batch(map[], 0, true, []).(count := MaxVertices - 8);
            var b' := AddVertices(b, 3, TriangleList);
            b'.count == MaxVertices - 5 && Headroom(b', 3) && b'.count + 6 > MaxVertices
  {
  }
}
