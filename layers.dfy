/** The layer visibility toggle: set `visible` on the first layer with the
    given id, in the editor's in-memory layer list, then write that list back
    as the manifest's `layers`. */
module Layers {
  import opened Common
  import opened ProjectManifest

  /** `layer.get("id") == layer_id`: a layer without an id never matches. */
  predicate Matches(l: Layer, layerId: int) {
    l.id == Some(layerId)
  }

  /** The position of the first layer whose id is `layerId`, if any. */
  function FirstMatch(layers: seq<Layer>, layerId: int): (r: Option<nat>)
    ensures r.Some? ==> r.value < |layers| && Matches(layers[r.value], layerId)
    ensures r.Some? ==> forall j :: 0 <= j < r.value ==> !Matches(layers[j], layerId)
    ensures r.None? <==> forall j :: 0 <= j < |layers| ==> !Matches(layers[j], layerId)
  {
    if layers == [] then None
    else if Matches(layers[0], layerId) then Some(0)
    else
      var rest := FirstMatch(layers[1..], layerId);
      if rest.None? then
        assert forall j :: 1 <= j < |layers| ==> layers[j] == layers[1..][j - 1];
        None
      else Some(rest.value + 1)
  }

  /** The layer list after the search loop: the first matching layer gets
      `visible` set, every other layer is as it was. No layer moves and no id
      changes. */
  function SetVisibility(layers: seq<Layer>, layerId: int, visible: bool): (r: seq<Layer>)
    ensures |r| == |layers|
    ensures forall j :: 0 <= j < |r| ==> r[j].id == layers[j].id
  {
    if layers == [] then []
    else if Matches(layers[0], layerId) then [layers[0].(visible := Some(visible))] + layers[1..]
    else [layers[0]] + SetVisibility(layers[1..], layerId, visible)
  }

  /** Position by position: only the first match changes, and in it only
      `visible`. */
  lemma {:induction false} SetVisibilityAt(layers: seq<Layer>, layerId: int, visible: bool)
    ensures |SetVisibility(layers, layerId, visible)| == |layers|
    ensures forall j :: 0 <= j < |layers| ==>
      SetVisibility(layers, layerId, visible)[j] ==
        if FirstMatch(layers, layerId) == Some(j) then layers[j].(visible := Some(visible)) else layers[j]
  {
    if layers != [] && !Matches(layers[0], layerId) {
      SetVisibilityAt(layers[1..], layerId, visible);
      var r := SetVisibility(layers, layerId, visible);
      forall j | 0 <= j < |layers|
        ensures r[j] == if FirstMatch(layers, layerId) == Some(j) then layers[j].(visible := Some(visible)) else layers[j]
      {
        if j > 0 {
          assert r[j] == SetVisibility(layers[1..], layerId, visible)[j - 1];
          assert layers[j] == layers[1..][j - 1];
        }
      }
    }
  }

  /** When no layer has the id, the list is unchanged. */
  lemma NoMatchUnchanged(layers: seq<Layer>, layerId: int, visible: bool)
    requires forall j :: 0 <= j < |layers| ==> !Matches(layers[j], layerId)
    ensures SetVisibility(layers, layerId, visible) == layers
  {
    SetVisibilityAt(layers, layerId, visible);
  }

  /** Layers that come after the first match, duplicates included, are
      untouched, and so is every layer without an id. */
  lemma LaterAndUnnamedUntouched(layers: seq<Layer>, layerId: int, visible: bool, j: int)
    requires 0 <= j < |layers|
    requires layers[j].id.None? || (exists i :: 0 <= i < j && Matches(layers[i], layerId))
    ensures |SetVisibility(layers, layerId, visible)| == |layers|
    ensures SetVisibility(layers, layerId, visible)[j] == layers[j]
  {
    SetVisibilityAt(layers, layerId, visible);
  }

  /** Every field other than `visible`, of every layer, is kept. */
  lemma OtherFieldsKept(layers: seq<Layer>, layerId: int, visible: bool)
    ensures var r := SetVisibility(layers, layerId, visible);
      |r| == |layers| && forall j :: 0 <= j < |r| ==> r[j] == layers[j].(visible := r[j].visible)
  {
    SetVisibilityAt(layers, layerId, visible);
  }

  /** Toggling twice with the same arguments is toggling once. */
  lemma ToggleIdempotent(layers: seq<Layer>, layerId: int, visible: bool)
    ensures SetVisibility(SetVisibility(layers, layerId, visible), layerId, visible)
         == SetVisibility(layers, layerId, visible)
  {
    var once := SetVisibility(layers, layerId, visible);
    ToggleKeepsFirstMatch(layers, layerId, visible);
    SetVisibilityAt(layers, layerId, visible);
    SetVisibilityAt(once, layerId, visible);
    var twice := SetVisibility(once, layerId, visible);
    assert forall j :: 0 <= j < |once| ==> twice[j] == once[j];
  }

  /** The toggle changes no id, so the first match stays where it was. */
  lemma ToggleKeepsFirstMatch(layers: seq<Layer>, layerId: int, visible: bool)
    ensures FirstMatch(SetVisibility(layers, layerId, visible), layerId) == FirstMatch(layers, layerId)
  {
    var once := SetVisibility(layers, layerId, visible);
    SetVisibilityAt(layers, layerId, visible);
    forall j | 0 <= j < |layers| ensures Matches(once[j], layerId) == Matches(layers[j], layerId) {
    }
    SameMatchesSameFirst(layers, once, layerId);
  }

  lemma SameMatchesSameFirst(a: seq<Layer>, b: seq<Layer>, layerId: int)
    requires |a| == |b| && forall j :: 0 <= j < |a| ==> Matches(a[j], layerId) == Matches(b[j], layerId)
    ensures FirstMatch(a, layerId) == FirstMatch(b, layerId)
  {
  }

  /** Id 0 is an id like any other here, though the editor neither lists nor
      paints such a layer: whenever some layer has id 0, toggling id 0 sets
      `visible` on the first of them. */
  lemma IdZeroMatches(layers: seq<Layer>, visible: bool)
    requires exists j :: 0 <= j < |layers| && layers[j].id == Some(0)
    ensures FirstMatch(layers, 0).Some?
    ensures SetVisibility(layers, 0, visible)[FirstMatch(layers, 0).value].visible == Some(visible)
  {
    SetVisibilityAt(layers, 0, visible);
  }

  /** The toggled list is the list with its first match updated in place. */
  lemma SetAtFirstMatch(layers: seq<Layer>, i: nat, layerId: int, visible: bool)
    requires FirstMatch(layers, layerId) == Some(i)
    ensures SetVisibility(layers, layerId, visible) == layers[i := layers[i].(visible := Some(visible))]
  {
    SetVisibilityAt(layers, layerId, visible);
  }

  /** `toggle_layer_visibility` on the in-memory list `layers` and the
      project's `project.json` as `stored`. The loop sets `visible` on the
      first match and stops; then the manifest is read back and written with
      `layers` replaced by the list. When the manifest cannot be read, does
      not decode, is not JSON, or is not an object, the function raises and writes nothing
      (`None`), after the list has already changed. */
  method ToggleLayerVisibility(stored: ManifestFile, layers: array<Layer>, layerId: int, visible: bool)
    returns (written: Option<Manifest>)
    modifies layers
    ensures layers[..] == SetVisibility(old(layers[..]), layerId, visible)
    ensures stored.Parsed? ==> written.Some? && written.value.layers == Some(layers[..])
    ensures stored.Parsed? ==> written.value.(layers := stored.manifest.layers) == stored.manifest
    ensures !stored.Parsed? ==> written.None?
  {
    ghost var before := layers[..];
    var i := 0;
    while i < layers.Length
      invariant 0 <= i <= layers.Length
      invariant layers[..] == before
      invariant forall j :: 0 <= j < i ==> !Matches(before[j], layerId)
    {
      if layers[i].id == Some(layerId) {
        assert FirstMatch(before, layerId) == Some(i);
        layers[i] := layers[i].(visible := Some(visible));
        SetAtFirstMatch(before, i, layerId, visible);
        break;
      }
      i := i + 1;
    }
    if i == layers.Length {
      NoMatchUnchanged(before, layerId, visible);
    }
    match stored {
      case Parsed(data) =>
        written := Some(data.(layers := Some(layers[..])));
      case _ =>
        written := None;
    }
  }
}
