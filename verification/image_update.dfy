/**
 An image update: an ordered list of patch operations. It is built from a JSON array
 (consuming the array as it goes), from a caller's list (kept, not copied), or through a
 builder that wraps, and hands back, the very update object it mutates.
 */
module ImageUpdate {
  import opened Wrappers
  import opened Json
  import opened PatchOperation

  /**
   What an array element must look like for an operation to be built from it: an object
   with an `op` member and a textual `path` member. The `op` member may be of any kind;
   only a string one has text.
   */
  predicate WellFormedElement(e: Json) {
    && e.JObject?
    && "op" in e.fields
    && "path" in e.fields
    && e.fields["path"].JString?
  }

  predicate AllWellFormed(elems: seq<Json>) {
    forall i :: 0 <= i < |elems| ==> WellFormedElement(elems[i])
  }

  /** The operation built from one array element. */
  function OpOf(e: Json, parseKind: Option<string> -> OpKind): PatchOperation
    requires WellFormedElement(e)
  {
    PatchOperation(parseKind(TextValue(e.fields["op"])), e.fields["path"].text, Get(e, "value"))
  }

  /**
   The operations built from a sequence of array elements, one per element and in the
   same order: the kind comes from the `op` text, the path is the `path` text, and the
   value is the element's `value` node carried through unchanged (None when absent).
   */
  function ParseOps(elems: seq<Json>, parseKind: Option<string> -> OpKind): (r: seq<PatchOperation>)
    requires AllWellFormed(elems)
    ensures |r| == |elems|
    ensures forall i :: 0 <= i < |elems| ==>
              && r[i].kind == parseKind(TextValue(elems[i].fields["op"]))
              && r[i].path == elems[i].fields["path"].text
              && r[i].value == Get(elems[i], "value")
  {
    if elems == [] then [] else [OpOf(elems[0], parseKind)] + ParseOps(elems[1..], parseKind)
  }

  /** Parsing distributes over concatenation of the element sequence. */
  lemma {:induction false} ParseOpsAppend(a: seq<Json>, b: seq<Json>, parseKind: Option<string> -> OpKind)
    requires AllWellFormed(a) && AllWellFormed(b)
    ensures AllWellFormed(a + b)
    ensures ParseOps(a + b, parseKind) == ParseOps(a, parseKind) + ParseOps(b, parseKind)
  {
    if a == [] {
      assert a + b == b;
    } else {
      assert (a + b)[1..] == a[1..] + b;
      ParseOpsAppend(a[1..], b, parseKind);
    }
  }

  /**
   The JSON constructor's walk over its argument. On an array it takes the elements
   front to back, removing each from the array before building its operation, so the
   array is left empty; on any other node it builds nothing and leaves the node alone.
   Returns the operations and the node as the walk leaves it.
   */
  method ParseArray(node: Json, parseKind: Option<string> -> OpKind)
    returns (ops: seq<PatchOperation>, drained: Json)
    requires node.JArray? ==> AllWellFormed(node.elems)
    ensures !node.JArray? ==> ops == [] && drained == node
    ensures node.JArray? ==> drained == JArray([])
    ensures node.JArray? ==> ops == ParseOps(node.elems, parseKind)
  {
    ops := [];
    drained := node;
    if node.JArray? {
      var remaining := node.elems;
      var k := 0;
      while remaining != []
        invariant 0 <= k <= |node.elems|
        invariant remaining == node.elems[k..]
        invariant ops == ParseOps(node.elems[..k], parseKind)
      {
        var next := remaining[0];
        remaining := remaining[1..];
        assert node.elems[..k + 1] == node.elems[..k] + [next];
        ParseOpsAppend(node.elems[..k], [next], parseKind);
        ops := ops + [OpOf(next, parseKind)];
        k := k + 1;
      }
      assert node.elems[..k] == node.elems;
      drained := JArray(remaining);
    }
  }

  /** A mutable list of operations (the update's backing list), shared by reference. */
  class OpList {
    var items: seq<PatchOperation>

    constructor (items: seq<PatchOperation>)
      ensures this.items == items
    {
      this.items := items;
    }

    method Add(op: PatchOperation)
      modifies this
      ensures items == old(items) + [op]
    {
      items := items + [op];
    }
  }

  /** A mutable JSON node, as handed to the JSON constructor. */
  class JsonNode {
    var value: Json

    constructor (value: Json)
      ensures this.value == value
    {
      this.value := value;
    }
  }

  class GlanceImageUpdate {
    var ops: OpList

    /** The no-argument constructor: a fresh, empty list. */
    constructor ()
      ensures fresh(ops) && ops.items == []
    {
      ops := new OpList([]);
    }

    /**
     The JSON constructor: a fresh list holding one operation per array element, in
     order; a non-array node gives an empty list. The array is drained as it is read.
     */
    constructor FromJson(node: JsonNode, parseKind: Option<string> -> OpKind)
      requires node.value.JArray? ==> AllWellFormed(node.value.elems)
      modifies node
      ensures fresh(ops)
      ensures !old(node.value).JArray? ==> ops.items == [] && node.value == old(node.value)
      ensures old(node.value).JArray? ==> node.value == JArray([])
      ensures old(node.value).JArray? ==> ops.items == ParseOps(old(node.value).elems, parseKind)
    {
      var parsed, drained := ParseArray(node.value, parseKind);
      node.value := drained;
      ops := new OpList(parsed);
    }

    /** The list constructor: keeps the caller's list itself, not a copy. */
    constructor FromList(ops: OpList)
      ensures this.ops == ops
    {
      this.ops := ops;
    }

    /** The backing list itself, not a copy. */
    function GetOps(): (r: OpList)
      reads this
      ensures r == ops
    {
      ops
    }

    /** A new builder wrapping this very update. */
    method ToBuilder() returns (b: UpdateBuilder)
      ensures fresh(b) && b.m == this
    {
      b := new UpdateBuilder.Wrapping(this);
    }

    /** A new builder wrapping a new, empty update. */
    static method Builder() returns (b: UpdateBuilder)
      ensures fresh(b) && fresh(b.m) && fresh(b.m.ops)
      ensures b.m.ops.items == []
    {
      b := new UpdateBuilder();
    }
  }

  /** The update builder: a handle on one update object, mutated in place. */
  class UpdateBuilder {
    var m: GlanceImageUpdate

    constructor ()
      ensures fresh(m) && fresh(m.ops) && m.ops.items == []
    {
      m := new GlanceImageUpdate();
    }

    constructor Wrapping(m: GlanceImageUpdate)
      ensures this.m == m
    {
      this.m := m;
    }

    /** Replaces the wrapped update's whole list by `l` (by reference) and returns this builder. */
    method Ops(l: OpList) returns (r: UpdateBuilder)
      modifies m
      ensures m == old(m) && m.ops == l
      ensures r == this
    {
      m.ops := l;
      r := this;
    }

    /** Returns the wrapped update object itself. */
    method Build() returns (u: GlanceImageUpdate)
      ensures u == m
    {
      u := m;
    }

    /** Makes this builder wrap `source` itself; returns this builder. */
    method From(source: GlanceImageUpdate) returns (r: UpdateBuilder)
      modifies this
      ensures m == source && r == this
    {
      m := source;
      r := this;
    }
  }

  /** Building twice from one builder yields one and the same object. */
  method BuildTwice(b: UpdateBuilder) returns (u1: GlanceImageUpdate, u2: GlanceImageUpdate)
    ensures u1 == u2 && u1 == b.m
  {
    u1 := b.Build();
    u2 := b.Build();
  }

  /** builder().build() is an update with no operations. */
  method BuiltFromScratchIsEmpty() returns (u: GlanceImageUpdate)
    ensures u.GetOps().items == []
  {
    var b := GlanceImageUpdate.Builder();
    u := b.Build();
  }

  /** Replacing the list through toBuilder() changes the original update. */
  method EditThroughBuilder(u: GlanceImageUpdate, l: OpList) returns (built: GlanceImageUpdate)
    modifies u
    ensures built == u && u.GetOps() == l
  {
    var b := u.ToBuilder();
    b := b.Ops(l);
    built := b.Build();
  }

  /** A change the caller makes to its list after constructing the update shows through getOps. */
  method CallerEditVisible(l: OpList, op: PatchOperation) returns (u: GlanceImageUpdate)
    modifies l
    ensures u.GetOps() == l
    ensures u.GetOps().items == old(l.items) + [op]
  {
    u := new GlanceImageUpdate.FromList(l);
    l.Add(op);
  }

  /** After from(u), a list replaced through the builder is u's list, and build() returns u. */
  method RetargetThenBuild(b: UpdateBuilder, u: GlanceImageUpdate, l: OpList) returns (built: GlanceImageUpdate)
    modifies b, u
    ensures built == u && u.GetOps() == l
  {
    var r := b.From(u);
    r := r.Ops(l);
    built := r.Build();
  }
}
