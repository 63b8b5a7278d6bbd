/**
 * The edit page's overlay effects: the catalogue of effect ids, the map from effect id
 * to "on" that `toggleEffect` updates, and the overlays the preview draws from it.
 */
module Effects {

  /** The ids of the effect catalogue, in the order the controls list them. */
  const EffectIds: seq<string> := ["vignette", "dust", "grain"]

  /**
   * JavaScript truthiness of `activeEffects[id]`: a key that is absent reads as
   * `undefined`, which is falsy.
   */
  predicate Truthy(activeEffects: map<string, bool>, id: string): (on: bool)
    ensures id !in activeEffects ==> !on
    ensures id in activeEffects ==> (on <==> activeEffects[id])
  {
    id in activeEffects && activeEffects[id]
  }

  /**
   * `toggleEffect`: a copy of the map in which `id` holds the negation of its old
   * truthiness. The key is present afterwards even if it was absent before.
   */
  function Toggle(activeEffects: map<string, bool>, id: string): (r: map<string, bool>)
    ensures Truthy(r, id) == !Truthy(activeEffects, id)
    ensures r.Keys == activeEffects.Keys + {id}
    ensures forall k :: k in activeEffects && k != id ==> r[k] == activeEffects[k]
  {
    activeEffects[id := !Truthy(activeEffects, id)]
  }

  /**
   * Toggling the same effect twice restores its truthiness and every other entry; an
   * id that was absent comes back as an explicit `false`.
   */
  lemma ToggleTwice(activeEffects: map<string, bool>, id: string)
    ensures Truthy(Toggle(Toggle(activeEffects, id), id), id) == Truthy(activeEffects, id)
    ensures id in activeEffects ==> Toggle(Toggle(activeEffects, id), id) == activeEffects
    ensures id !in activeEffects ==> Toggle(Toggle(activeEffects, id), id) == activeEffects[id := false]
  {
    var once := Toggle(activeEffects, id);
    var twice := Toggle(once, id);
    if id in activeEffects {
      assert twice.Keys == activeEffects.Keys;
      assert forall k :: k in twice ==> twice[k] == activeEffects[k];
    } else {
      assert twice.Keys == activeEffects[id := false].Keys;
    }
  }

  /** Toggles of two effects commute. */
  lemma ToggleCommutes(activeEffects: map<string, bool>, a: string, b: string)
    ensures Toggle(Toggle(activeEffects, a), b) == Toggle(Toggle(activeEffects, b), a)
  {
    var ab := Toggle(Toggle(activeEffects, a), b);
    var ba := Toggle(Toggle(activeEffects, b), a);
    assert ab.Keys == ba.Keys;
    assert forall k :: k in ab ==> ab[k] == ba[k];
  }

  /** The effects that are switched on. */
  function ActiveSet(activeEffects: map<string, bool>): (r: set<string>)
    ensures forall id :: id in r <==> Truthy(activeEffects, id)
  {
    set id | id in activeEffects && activeEffects[id]
  }

  /** A toggle adds the effect to the active set or removes it, and touches nothing else. */
  lemma ActiveSetToggle(activeEffects: map<string, bool>, id: string)
    ensures Truthy(activeEffects, id) ==> ActiveSet(Toggle(activeEffects, id)) == ActiveSet(activeEffects) - {id}
    ensures !Truthy(activeEffects, id) ==> ActiveSet(Toggle(activeEffects, id)) == ActiveSet(activeEffects) + {id}
  {
  }

  /** The overlays the preview draws over the image, in their fixed stacking order. */
  datatype Overlay = VignetteOverlay | DustOverlay | GrainOverlay
  {
    /** The overlay's place in the stack: vignette first, then dust, then grain. */
    function Rank(): nat {
      match this
      case VignetteOverlay => 0
      case DustOverlay => 1
      case GrainOverlay => 2
    }
  }

  /** The overlays drawn for the current effect map: each one whose effect is on, in order. */
  function Overlays(activeEffects: map<string, bool>): (r: seq<Overlay>)
    ensures VignetteOverlay in r <==> Truthy(activeEffects, "vignette")
    ensures DustOverlay in r <==> Truthy(activeEffects, "dust")
    ensures GrainOverlay in r <==> Truthy(activeEffects, "grain")
    ensures forall i, j :: 0 <= i < j < |r| ==> r[i].Rank() < r[j].Rank()
  {
    (if Truthy(activeEffects, "vignette") then [VignetteOverlay] else [])
    + (if Truthy(activeEffects, "dust") then [DustOverlay] else [])
    + (if Truthy(activeEffects, "grain") then [GrainOverlay] else [])
  }

  /** The overlays drawn depend only on which effects are on, not on how the map got there. */
  lemma OverlaysFollowActiveSet(m1: map<string, bool>, m2: map<string, bool>)
    requires ActiveSet(m1) == ActiveSet(m2)
    ensures Overlays(m1) == Overlays(m2)
  {
    assert Truthy(m1, "vignette") == Truthy(m2, "vignette");
    assert Truthy(m1, "dust") == Truthy(m2, "dust");
    assert Truthy(m1, "grain") == Truthy(m2, "grain");
  }

  /** Toggling an effect that is not drawn as an overlay leaves the overlays as they were. */
  lemma ToggleOtherKeepsOverlays(activeEffects: map<string, bool>, id: string)
    requires id !in EffectIds
    ensures Overlays(Toggle(activeEffects, id)) == Overlays(activeEffects)
  {
    assert Truthy(Toggle(activeEffects, id), "vignette") == Truthy(activeEffects, "vignette");
    assert Truthy(Toggle(activeEffects, id), "dust") == Truthy(activeEffects, "dust");
    assert Truthy(Toggle(activeEffects, id), "grain") == Truthy(activeEffects, "grain");
  }
}
