/** The bind-group builders of the `render` crate: a layout builder that
    collects layout entries, and `bind`, which pairs each entry with the
    resource a caller-supplied function picks for it. An entry's visibility
    and binding type are an opaque `D`; a resource is an opaque `R`. */
module Binding {
  import opened Bytes
  import opened Wrappers

  /** `wgpu::BindGroupLayoutEntry`: the binding number and the rest. */
  datatype LayoutEntry<D> = LayoutEntry(binding: u32, details: D)

  /** `wgpu::BindGroupEntry`. */
  datatype BindGroupEntry<R> = BindGroupEntry(binding: u32, resource: R)

  datatype BindGroupLayoutBuilder<D> = BindGroupLayoutBuilder(entries: seq<LayoutEntry<D>>)

  /** `BindGroupLayoutBuilder::new`. */
  function NewLayoutBuilder<D>(): (b: BindGroupLayoutBuilder<D>)
    ensures |b.entries| == 0
  {
    BindGroupLayoutBuilder([])
  }

  /** `set_entry`: the entry goes last, earlier entries stay as they are. */
  function SetEntry<D>(b: BindGroupLayoutBuilder<D>, entry: LayoutEntry<D>): (r: BindGroupLayoutBuilder<D>)
    ensures |r.entries| == |b.entries| + 1
    ensures r.entries[..|b.entries|] == b.entries
    ensures r.entries[|b.entries|] == entry
  {
    BindGroupLayoutBuilder(b.entries + [entry])
  }

  /** The output for one entry: its binding with the resource `f` picks,
      or nothing when `f` picks none. */
  function BindOne<D, R>(entry: LayoutEntry<D>, f: LayoutEntry<D> -> Option<R>): seq<BindGroupEntry<R>>
  {
    match f(entry)
    case Some(resource) => [BindGroupEntry(entry.binding, resource)]
    case None => []
  }

  /** The number of entries `f` picks a resource for. */
  function Picked<D, R>(entries: seq<LayoutEntry<D>>, f: LayoutEntry<D> -> Option<R>): nat
  {
    if |entries| == 0 then 0 else (if f(entries[0]).Some? then 1 else 0) + Picked(entries[1..], f)
  }

  /** `BindGroupBuilder::bind` over the builder's entries: the `filter_map` over the entries, in entry order. Every
      output comes from an entry, with that entry's binding and the resource
      `f` returned for it; every entry `f` picks a resource for appears; the
      rest are dropped. */
  function Bind<D, R>(entries: seq<LayoutEntry<D>>, f: LayoutEntry<D> -> Option<R>): (r: seq<BindGroupEntry<R>>)
    ensures |r| == Picked(entries, f) <= |entries|
    ensures forall k :: 0 <= k < |r| ==>
      exists i :: 0 <= i < |entries| && entries[i].binding == r[k].binding && f(entries[i]) == Some(r[k].resource)
    ensures forall i :: 0 <= i < |entries| && f(entries[i]).Some? ==>
      BindGroupEntry(entries[i].binding, f(entries[i]).value) in r
    decreases |entries|
  {
    if |entries| == 0 then []
    else
      var rest := Bind(entries[1..], f);
      var r := BindOne(entries[0], f) + rest;
      assert forall k :: 0 <= k < |rest| ==> r[|r| - |rest| + k] == rest[k];
      assert forall i :: 1 <= i < |entries| ==> entries[i] == entries[1..][i - 1];
      r
  }

  /** Binding a concatenation binds each part in order. */
  lemma {:induction false} BindAppend<D, R>(a: seq<LayoutEntry<D>>, b: seq<LayoutEntry<D>>, f: LayoutEntry<D> -> Option<R>)
    ensures Bind(a + b, f) == Bind(a, f) + Bind(b, f)
    decreases |a|
  {
    if |a| > 0 {
      assert (a + b)[1..] == a[1..] + b;
      BindAppend(a[1..], b, f);
    } else {
      assert a + b == b;
    }
  }

  /** Setting one more layout entry adds at most one bound entry, at the
      end. */
  lemma SetEntryThenBind<D, R>(b: BindGroupLayoutBuilder<D>, entry: LayoutEntry<D>, f: LayoutEntry<D> -> Option<R>)
    ensures Bind(SetEntry(b, entry).entries, f) == Bind(b.entries, f) + BindOne(entry, f)
  {
    BindAppend(b.entries, [entry], f);
  }

  /** When `f` has a resource for every entry, `bind` keeps them all, one
      output per entry, with the entries' bindings in order. */
  lemma {:induction false} BindTotal<D, R>(entries: seq<LayoutEntry<D>>, f: LayoutEntry<D> -> Option<R>)
    requires forall i :: 0 <= i < |entries| ==> f(entries[i]).Some?
    ensures |Bind(entries, f)| == |entries|
    ensures forall i :: 0 <= i < |entries| ==>
      Bind(entries, f)[i] == BindGroupEntry(entries[i].binding, f(entries[i]).value)
    decreases |entries|
  {
    if |entries| > 0 {
      assert forall i :: 0 <= i < |entries[1..]| ==> entries[1..][i] == entries[i + 1];
      BindTotal(entries[1..], f);
    }
  }
}
