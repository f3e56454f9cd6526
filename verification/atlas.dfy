/** `TextureAtlas` placement bookkeeping: the atlas dimensions, the guard
    `append_raw_texture` runs before copying, and the map from frame names
    to the layer and rectangle they were placed at. The GPU texture, its
    view and the copies are not modelled. */
module Atlas {
  import opened Bytes
  import opened Wrappers

  datatype TextureRect = TextureRect(width: u32, height: u32, x: u32, y: u32)

  /** `TexturePosition`. */
  type TexturePosition = (u32, u32)

  /** A placement: the layer and the rectangle inside it. */
  type Placement = (u32, TextureRect)

  datatype TextureAtlas = TextureAtlas(
    layerCount: u32,
    width: u32,
    height: u32,
    rectangles: map<string, Placement>)

  /** The three panics of the private `assert`, in the order it checks. */
  datatype AtlasPanic = CannotAddMoreLayers | WidthTooBig | HeightTooBig

  /** `TextureAtlas::new`: the requested dimensions, nothing placed. */
  function New(width: u32, height: u32, layerCount: u32): (a: TextureAtlas)
    ensures Dimensions(a) == (width, height, layerCount)
    ensures forall name :: Frame(a, name).None?
  {
    TextureAtlas(layerCount, width, height, map[])
  }

  /** `frame`: the placement recorded under `name`, if any. */
  function Frame(a: TextureAtlas, name: string): (r: Option<Placement>)
    ensures r.Some? <==> name in a.rectangles
    ensures r.Some? ==> r.value == a.rectangles[name]
  {
    if name in a.rectangles then Some(a.rectangles[name]) else None
  }

  /** `dimensions`: `(width, height, layer_count)`. */
  function Dimensions(a: TextureAtlas): (r: (u32, u32, u32))
    ensures r.0 == a.width && r.1 == a.height && r.2 == a.layerCount
  {
    (a.width, a.height, a.layerCount)
  }

  /** The private `assert`: the first check that fails, if any. The layer
      check is `layer <= layer_count`. */
  function Check(a: TextureAtlas, width: u32, height: u32, layer: u32): (r: Option<AtlasPanic>)
    ensures r.None? <==> layer <= a.layerCount && width <= a.width && height <= a.height
    ensures r == Some(CannotAddMoreLayers) <==> layer > a.layerCount
    ensures r == Some(WidthTooBig) <==> layer <= a.layerCount && width > a.width
    ensures r == Some(HeightTooBig) <==> layer <= a.layerCount && width <= a.width && height > a.height
  {
    if !(layer <= a.layerCount) then Some(CannotAddMoreLayers)
    else if !(width <= a.width) then Some(WidthTooBig)
    else if !(height <= a.height) then Some(HeightTooBig)
    else None
  }

  /** Where a copy lands: the destination, or the origin when none is
      given. */
  function Origin(destination: Option<TexturePosition>): (r: TexturePosition)
    ensures destination.Some? ==> r == destination.value
    ensures destination.None? ==> r == (0, 0)
  {
    destination.GetOr((0, 0))
  }

  /** `append_raw_texture`, bookkeeping half: panics as `assert` does;
      otherwise, assuming the texel copy before the insert succeeds,
      records `name` at `layer` with the source's size at the destination
      (the origin by default), replacing any earlier placement of that
      name. The destination itself is not checked. */
  function AppendRawTexture(a: TextureAtlas, name: string, layer: u32, source: TextureRect,
                            destination: Option<TexturePosition>): (r: Result<TextureAtlas, AtlasPanic>)
    ensures r.Err? <==> Check(a, source.width, source.height, layer).Some?
    ensures r.Err? ==> r.error == Check(a, source.width, source.height, layer).value
    ensures r.Ok? ==>
      Frame(r.value, name) == Some((layer, TextureRect(source.width, source.height, Origin(destination).0, Origin(destination).1)))
    ensures r.Ok? ==> forall other :: other != name ==> Frame(r.value, other) == Frame(a, other)
    ensures r.Ok? ==> Dimensions(r.value) == Dimensions(a)
  {
    match Check(a, source.width, source.height, layer)
    case Some(panic) => Err(panic)
    case None =>
      var origin := Origin(destination);
      var rect := TextureRect(source.width, source.height, origin.0, origin.1);
      Ok(a.(rectangles := a.rectangles[name := (layer, rect)]))
  }

  /** `TextureAtlasFromBytes`: an atlas borrowed while frames are cut out of
      one source texture (the texture and the GPU context are not
      modelled). */
  datatype TextureAtlasFromBytes = TextureAtlasFromBytes(atlas: TextureAtlas)

  /** `TextureAtlasFromBytes::add`. */
  function Add(b: TextureAtlasFromBytes, name: string, layer: u32, source: TextureRect,
               destination: Option<TexturePosition>): (r: Result<TextureAtlasFromBytes, AtlasPanic>)
    ensures r.Err? <==> Check(b.atlas, source.width, source.height, layer).Some?
    ensures r.Ok? ==> Frame(r.value.atlas, name).Some? && Frame(r.value.atlas, name).value.0 == layer
  {
    match AppendRawTexture(b.atlas, name, layer, source, destination)
    case Ok(a) => Ok(TextureAtlasFromBytes(a))
    case Err(e) => Err(e)
  }

  /** `add` changes the borrowed atlas exactly as `append_raw_texture`
      would. */
  lemma AddIsAppend(b: TextureAtlasFromBytes, name: string, layer: u32, source: TextureRect,
                    destination: Option<TexturePosition>)
    ensures Add(b, name, layer, source, destination).Ok?
        <==> AppendRawTexture(b.atlas, name, layer, source, destination).Ok?
    ensures Add(b, name, layer, source, destination).Ok? ==>
      Add(b, name, layer, source, destination).value.atlas == AppendRawTexture(b.atlas, name, layer, source, destination).value
  {
  }

  /** One `add` call made by the closure of `append_bytes`. */
  datatype AddCall = AddCall(name: string, layer: u32, source: TextureRect, destination: Option<TexturePosition>)

  /** The guard of `append_raw_texture` lets the call through. */
  predicate Accepts(a: TextureAtlas, c: AddCall)
  {
    Check(a, c.source.width, c.source.height, c.layer).None?
  }

  /** The placement an accepted call records for its name. */
  function Placed(c: AddCall): Placement
  {
    (c.layer, TextureRect(c.source.width, c.source.height, Origin(c.destination).0, Origin(c.destination).1))
  }

  /** `append_bytes` with a closure making the given `add` calls in turn:
      the first panic ends it. Since no call changes the dimensions, the
      batch panics exactly when one of its calls fails the guard against
      the atlas as it was, and then with that call's panic. */
  function AppendBytes(a: TextureAtlas, calls: seq<AddCall>): (r: Result<TextureAtlas, AtlasPanic>)
    ensures r.Ok? <==> forall i :: 0 <= i < |calls| ==> Accepts(a, calls[i])
    ensures r.Err? ==> exists i :: 0 <= i < |calls| && Check(a, calls[i].source.width, calls[i].source.height, calls[i].layer) == Some(r.error)
    ensures r.Ok? ==> Dimensions(r.value) == Dimensions(a)
    decreases |calls|
  {
    if |calls| == 0 then Ok(a)
    else
      var c := calls[0];
      match Add(TextureAtlasFromBytes(a), c.name, c.layer, c.source, c.destination)
      case Err(e) => Err(e)
      case Ok(b) => AppendBytes(b.atlas, calls[1..])
  }

  /** However many frames are added, the atlas keeps its dimensions, and
      names no call mentions keep their placement. */
  lemma {:induction false} AppendBytesKeeps(a: TextureAtlas, calls: seq<AddCall>, other: string)
    requires forall i :: 0 <= i < |calls| ==> calls[i].name != other
    ensures AppendBytes(a, calls).Ok? ==> Dimensions(AppendBytes(a, calls).value) == Dimensions(a)
    ensures AppendBytes(a, calls).Ok? ==> Frame(AppendBytes(a, calls).value, other) == Frame(a, other)
    decreases |calls|
  {
    if |calls| > 0 {
      var c := calls[0];
      var r := AppendRawTexture(a, c.name, c.layer, c.source, c.destination);
      if r.Ok? {
        AppendBytesKeeps(r.value, calls[1..], other);
      }
    }
  }

  /** After a successful batch, every name holds the placement of the
      last call that mentions it. */
  lemma {:induction false} AppendBytesLastWins(a: TextureAtlas, calls: seq<AddCall>)
    ensures AppendBytes(a, calls).Ok? ==>
      forall i :: 0 <= i < |calls| && (forall j :: i < j < |calls| ==> calls[j].name != calls[i].name) ==>
        Frame(AppendBytes(a, calls).value, calls[i].name) == Some(Placed(calls[i]))
    decreases |calls|
  {
    if |calls| > 0 && AppendBytes(a, calls).Ok? {
      var c := calls[0];
      var rest := calls[1..];
      var b := AppendRawTexture(a, c.name, c.layer, c.source, c.destination).value;
      AppendBytesLastWins(b, rest);
      var r := AppendBytes(a, calls).value;
      assert AppendBytes(b, rest) == Ok(r);
      forall i | 0 <= i < |calls| && (forall j :: i < j < |calls| ==> calls[j].name != calls[i].name)
        ensures Frame(r, calls[i].name) == Some(Placed(calls[i]))
      {
        forall j | i <= j < |rest| ensures rest[j].name != calls[i].name {
          assert rest[j] == calls[j + 1];
        }
        if i > 0 {
          assert calls[i] == rest[i - 1];
        } else {
          AppendBytesKeeps(b, rest, c.name);
        }
      }
    }
  }

  /** `frame_to_raw`, bookkeeping half: the size of the texture it creates,
      absent exactly when the frame is. */
  function FrameToRaw(a: TextureAtlas, name: string): (r: Option<(u32, u32)>)
    ensures r.None? <==> Frame(a, name).None?
    ensures r.Some? ==> r.value == (Frame(a, name).value.1.width, Frame(a, name).value.1.height)
  {
    match Frame(a, name)
    case None => None
    case Some(frame) => Some((frame.1.width, frame.1.height))
  }

  /** After an append, converting the frame back yields a texture of the
      appended source's size. */
  lemma AppendThenFrameToRaw(a: TextureAtlas, name: string, layer: u32, source: TextureRect,
                             destination: Option<TexturePosition>)
    requires AppendRawTexture(a, name, layer, source, destination).Ok?
    ensures FrameToRaw(AppendRawTexture(a, name, layer, source, destination).value, name)
         == Some((source.width, source.height))
  {
  }

  // ---------------------------------------------------------------------
  // The guard as written lets placements leave the atlas.

  /** Every placement lies on an existing layer and inside the atlas. */
  ghost predicate InBounds(a: TextureAtlas)
  {
    forall name :: name in a.rectangles ==>
      var p := a.rectangles[name];
      && p.0 < a.layerCount
      && p.1.x + p.1.width <= a.width
      && p.1.y + p.1.height <= a.height
  }

  /** The layer equal to `layer_count` passes the guard, although the
      layers are `0..layer_count - 1`; the placement recorded if the copy
      succeeded leaves the atlas out of bounds. */
  lemma LayerCountAccepted(a: TextureAtlas, name: string, source: TextureRect)
    requires source.width <= a.width && source.height <= a.height
    ensures AppendRawTexture(a, name, a.layerCount, source, None).Ok?
    ensures !InBounds(AppendRawTexture(a, name, a.layerCount, source, None).value)
  {
    var b := AppendRawTexture(a, name, a.layerCount, source, None).value;
    assert name in b.rectangles;
  }

  /** The destination is not checked: a 100 by 100 frame placed at
      (200, 200) in a 256 by 256 atlas passes the guard, and the placement
      recorded if the copy succeeded ends 44 pixels past both edges. */
  lemma DestinationUnchecked()
    ensures var a := New(256, 256, 1);
      var r := AppendRawTexture(a, "sprite", 0, TextureRect(100, 100, 0, 0), Some((200, 200)));
      && InBounds(a)
      && r.Ok?
      && Frame(r.value, "sprite") == Some((0, TextureRect(100, 100, 200, 200)))
      && !InBounds(r.value)
  {
    var a := New(256, 256, 1);
    var r := AppendRawTexture(a, "sprite", 0, TextureRect(100, 100, 0, 0), Some((200, 200)));
    assert "sprite" in r.value.rectangles;
  }

  /** The guard as evidently intended: an existing layer, and the whole
      rectangle inside the atlas at its destination. */
  function AppendRawTextureChecked(a: TextureAtlas, name: string, layer: u32, source: TextureRect,
                                   destination: Option<TexturePosition>): (r: Result<TextureAtlas, AtlasPanic>)
    ensures r.Ok? <==>
      && layer < a.layerCount
      && Origin(destination).0 + source.width <= a.width
      && Origin(destination).1 + source.height <= a.height
    ensures r.Ok? ==> r == AppendRawTexture(a, name, layer, source, destination)
    ensures r.Ok? && InBounds(a) ==> InBounds(r.value)
  {
    var origin := Origin(destination);
    if !(layer < a.layerCount) then Err(CannotAddMoreLayers)
    else if !(origin.0 + source.width <= a.width) then Err(WidthTooBig)
    else if !(origin.1 + source.height <= a.height) then Err(HeightTooBig)
    else AppendRawTexture(a, name, layer, source, destination)
  }

  /** `append_bytes` over the corrected guard. */
  function AppendBytesChecked(a: TextureAtlas, calls: seq<AddCall>): Result<TextureAtlas, AtlasPanic>
    decreases |calls|
  {
    if |calls| == 0 then Ok(a)
    else
      var c := calls[0];
      match AppendRawTextureChecked(a, c.name, c.layer, c.source, c.destination)
      case Err(e) => Err(e)
      case Ok(b) => AppendBytesChecked(b, calls[1..])
  }

  /** With the corrected guard, no sequence of appends ever places a frame
      outside the atlas. */
  lemma {:induction false} AppendBytesCheckedInBounds(a: TextureAtlas, calls: seq<AddCall>)
    requires InBounds(a)
    ensures AppendBytesChecked(a, calls).Ok? ==> InBounds(AppendBytesChecked(a, calls).value)
    decreases |calls|
  {
    if |calls| > 0 {
      var c := calls[0];
      var r := AppendRawTextureChecked(a, c.name, c.layer, c.source, c.destination);
      if r.Ok? {
        AppendBytesCheckedInBounds(r.value, calls[1..]);
      }
    }
  }
}
