/**
 * The filter catalogue of the edit page and the two CSS `filter` values built from it:
 * the live preview's, where every channel is moved from its baseline towards the
 * filter's target by the intensity slider, and the thumbnail's, which lists only the
 * channels a filter defines, at their raw targets.
 *
 * A CSS filter value is modelled as a token sequence rather than as text: each filter
 * function is one `Fn` token carrying its name, numeric value and unit, and each single
 * space the page appends after a function is one `Sep` token. How JavaScript prints a
 * number is not modelled; channel values are exact reals.
 */
module Filters {
  import opened Common

  /** The colour-adjustment channels the page knows, one per CSS filter function. */
  datatype Channel = Brightness | Contrast | Saturate | Grayscale | Sepia | HueRotate
  {
    /** The CSS function name, which is also the key of the channel in a filter's properties. */
    function CssName(): string {
      match this
      case Brightness => "brightness"
      case Contrast => "contrast"
      case Saturate => "saturate"
      case Grayscale => "grayscale"
      case Sepia => "sepia"
      case HueRotate => "hue-rotate"
    }

    /** The "no change" value the preview starts from for this channel. */
    function Baseline(): real {
      match this
      case Brightness => 100.0
      case Contrast => 100.0
      case Saturate => 100.0
      case Grayscale => 0.0
      case Sepia => 0.0
      case HueRotate => 0.0
    }

    function Unit(): CssUnit {
      if this == HueRotate then Deg else Percent
    }
  }

  datatype CssUnit = Percent | Deg

  /** The order in which both filter values list their functions. */
  const ChannelOrder: seq<Channel> := [Brightness, Contrast, Saturate, Grayscale, Sepia, HueRotate]

  /** A catalogue entry: id, display name, and a partial map from channel to target value. */
  datatype FilterDef = FilterDef(id: string, name: string, properties: map<Channel, real>)

  /** The six predefined filters, in display order. */
  const Catalogue: seq<FilterDef> := [
    FilterDef("none", "None", map[]),
    FilterDef("midnight", "Midnight",
      map[Brightness := 85.0, Contrast := 120.0, Saturate := 80.0, Sepia := 20.0]),
    FilterDef("noir", "Noir",
      map[Grayscale := 100.0, Contrast := 150.0, Brightness := 90.0]),
    FilterDef("cinematic", "Cinematic",
      map[Sepia := 40.0, Contrast := 110.0, Brightness := 95.0, Saturate := 120.0]),
    FilterDef("vintage", "Vintage",
      map[Sepia := 70.0, Contrast := 90.0, Brightness := 110.0]),
    FilterDef("daydream", "Daydream",
      map[Brightness := 110.0, Saturate := 130.0, HueRotate := -10.0])
  ]

  /** One filter function `name(value unit)`, or the single space written after one. */
  datatype Token = Fn(name: string, value: real, unit: CssUnit) | Sep

  /** A CSS `filter` value: the keyword `none`, or filter functions with their separators. */
  datatype CssFilter = NoneKeyword | FunctionList(tokens: seq<Token>)

  /** A channel's property as JavaScript reads it: `undefined` when the filter leaves it out. */
  function Lookup(properties: map<Channel, real>, c: Channel): (r: Option<real>)
    ensures r.Some? <==> c in properties
    ensures r.Some? ==> r.value == properties[c]
  {
    if c in properties then Some(properties[c]) else None
  }

  /** `filters.find`: the first entry of `fs` whose id is `id`, if any. */
  function Find(fs: seq<FilterDef>, id: string): (r: Option<FilterDef>)
    ensures r.None? ==> forall f :: f in fs ==> f.id != id
    ensures r.Some? ==> r.value.id == id
    ensures r.Some? ==> exists k :: 0 <= k < |fs| && fs[k] == r.value && FirstWithId(fs, k, id)
  {
    if |fs| == 0 then None
    else if fs[0].id == id then
      assert FirstWithId(fs, 0, id);
      Some(fs[0])
    else
      var r := Find(fs[1..], id);
      assert r.Some? ==> exists k :: 0 <= k < |fs| && fs[k] == r.value && FirstWithId(fs, k, id) by {
        if r.Some? {
          var k :| 0 <= k < |fs| - 1 && fs[1..][k] == r.value && FirstWithId(fs[1..], k, id);
          assert fs[k + 1] == r.value;
          forall j | 0 <= j < k + 1 ensures fs[j].id != id {
            if j > 0 {
              assert fs[j] == fs[1..][j - 1];
            }
          }
          assert FirstWithId(fs, k + 1, id);
        }
      }
      r
  }

  /** No entry before position `k` has the id `id`. */
  ghost predicate FirstWithId(fs: seq<FilterDef>, k: int, id: string) {
    forall j :: 0 <= j < k && j < |fs| ==> fs[j].id != id
  }

  /** Where the slider's maximum of 150 puts a channel: half as far again past its target. */
  function Overdriven(baseline: real, target: real): real {
    baseline + 1.5 * (target - baseline)
  }

  predicate Between(x: real, a: real, b: real) {
    (a <= x <= b) || (b <= x <= a)
  }

  /**
   * `getVal`: the preview value of one channel. It is the baseline when the filter leaves
   * the channel undefined, and otherwise the baseline moved towards the target by
   * intensity/100. The intensity is not clamped: the slider offers 0..150, and above 100
   * the value runs past the target.
   */
  function GetVal(defaultValue: real, filterValue: Option<real>, intensity: real): (r: real)
    ensures filterValue.None? ==> r == defaultValue
    ensures filterValue.Some? && intensity == 0.0 ==> r == defaultValue
    ensures filterValue.Some? && intensity == 100.0 ==> r == filterValue.value
    ensures filterValue.Some? && intensity == 150.0 ==>
              r == Overdriven(defaultValue, filterValue.value)
  {
    if filterValue.None? then defaultValue
    else defaultValue + (filterValue.value - defaultValue) * (intensity / 100.0)
  }

  /** Between intensities 0 and 100 a defined channel lies between its baseline and its target. */
  lemma GetValBetween(defaultValue: real, filterValue: Option<real>, intensity: real)
    requires filterValue.Some? && 0.0 <= intensity <= 100.0
    ensures Between(GetVal(defaultValue, filterValue, intensity), defaultValue, filterValue.value)
  {
    ScaledBetween(filterValue.value - defaultValue, intensity / 100.0);
  }

  /**
   * Anywhere on the slider (0..150) a defined channel lies between its baseline and
   * where the slider's maximum puts it.
   */
  lemma GetValWithinSlider(defaultValue: real, filterValue: Option<real>, intensity: real)
    requires filterValue.Some? && 0.0 <= intensity <= 150.0
    ensures Between(GetVal(defaultValue, filterValue, intensity), defaultValue, Overdriven(defaultValue, filterValue.value))
  {
    var d := filterValue.value - defaultValue;
    var x := d * (intensity / 100.0);
    assert x == (1.5 * d) * (intensity / 150.0);
    ScaledBetween(1.5 * d, intensity / 150.0);
    assert Between(x, 0.0, 1.5 * d);
    assert GetVal(defaultValue, filterValue, intensity) == defaultValue + x;
    assert Overdriven(defaultValue, filterValue.value) == defaultValue + 1.5 * d;
  }

  lemma ScaledBetween(d: real, k: real)
    requires 0.0 <= k <= 1.0
    ensures Between(d * k, 0.0, d)
  {
    if d >= 0.0 {
      assert d * k <= d * 1.0;
    } else {
      assert d * k >= d * 1.0;
    }
  }

  /** The preview's function for channel `c` of a filter with these properties. */
  function Interpolated(c: Channel, properties: map<Channel, real>, intensity: real): (t: Token)
    ensures t.Fn? && t.name == c.CssName() && t.unit == c.Unit()
    ensures c !in properties ==> t.value == c.Baseline()
  {
    Fn(c.CssName(), GetVal(c.Baseline(), Lookup(properties, c), intensity), c.Unit())
  }

  /**
   * `getCssFilterString`: the preview's filter value for the selected filter id and the
   * intensity: `none` when no real filter is selected, and otherwise the six channels in
   * the fixed order, each followed by a space except the last.
   */
  function CssFilterString(selectedFilter: string, intensity: real): (r: CssFilter)
    ensures r.NoneKeyword? <==> selectedFilter == "none" || Find(Catalogue, selectedFilter).None?
    ensures r.FunctionList? ==> |r.tokens| == 11 && WellSpaced(r.tokens)
  {
    var filter := Find(Catalogue, selectedFilter);
    if filter.None? || filter.value.id == "none" then NoneKeyword
    else FunctionList(PreviewTokens(ChannelOrder, filter.value.properties, intensity))
  }

  /** The appends of `getCssFilterString` for the channels `cs`, in order. */
  function PreviewTokens(cs: seq<Channel>, p: map<Channel, real>, intensity: real): (filterString: seq<Token>)
    requires |cs| > 0
    ensures |filterString| == 2 * |cs| - 1 && WellSpaced(filterString)
  {
    if |cs| == 1 then [Interpolated(cs[0], p, intensity)]
    else
      var rest := PreviewTokens(cs[1..], p, intensity);
      AlternatingPairs([Interpolated(cs[0], p, intensity), Sep], rest);
      [Interpolated(cs[0], p, intensity), Sep] + rest
  }

  /** The thumbnail's text for channel `c`: its raw target and, except after hue-rotate, a space. */
  function RawPiece(c: Channel, properties: map<Channel, real>): (r: seq<Token>)
    ensures Alternating(r)
  {
    if c !in properties then []
    else if c == HueRotate then [Fn(c.CssName(), properties[c], c.Unit())]
    else [Fn(c.CssName(), properties[c], c.Unit()), Sep]
  }

  /** The conditional appends of `getThumbnailFilterString` for the channels `cs`, in order. */
  function ThumbnailTokens(cs: seq<Channel>, properties: map<Channel, real>): (r: seq<Token>)
    ensures |r| <= 2 * |cs|
    ensures r == [] <==> forall c :: c in cs ==> c !in properties
  {
    if |cs| == 0 then [] else RawPiece(cs[0], properties) + ThumbnailTokens(cs[1..], properties)
  }

  /**
   * `getThumbnailFilterString`: the filter value of a catalogue thumbnail. Only the
   * channels the filter defines appear, at their raw targets, and the result is trimmed.
   */
  function ThumbnailFilterString(filter: FilterDef): (r: CssFilter)
    ensures r.NoneKeyword? <==> filter.id == "none"
    ensures r.FunctionList? ==> WellSpaced(r.tokens)
  {
    if filter.id == "none" then NoneKeyword
    else
      var filterString := ThumbnailTokens(ChannelOrder, filter.properties);
      ThumbnailAlternating(ChannelOrder, filter.properties);
      TrimAlternating(filterString);
      FunctionList(Trim(filterString))
  }

  // ---- what the two filter values contain ----

  /** The preview's functions for the channels `cs`: each channel interpolated, in order. */
  function PreviewFunctions(cs: seq<Channel>, properties: map<Channel, real>, intensity: real): (r: seq<Token>)
    ensures |r| == |cs|
  {
    seq(|cs|, i requires 0 <= i < |cs| => Interpolated(cs[i], properties, intensity))
  }

  /** The thumbnail's functions for the channels `cs`: the raw target of each defined one, in order. */
  function Targets(cs: seq<Channel>, properties: map<Channel, real>): seq<Token> {
    if |cs| == 0 then []
    else
      (if cs[0] in properties then [Fn(cs[0].CssName(), properties[cs[0]], cs[0].Unit())] else [])
      + Targets(cs[1..], properties)
  }

  /** The preview of a filter with no effect: every channel at its baseline. */
  const NeutralPreview: seq<Token> := [
    Fn("brightness", 100.0, Percent), Fn("contrast", 100.0, Percent), Fn("saturate", 100.0, Percent),
    Fn("grayscale", 0.0, Percent), Fn("sepia", 0.0, Percent), Fn("hue-rotate", 0.0, Deg)
  ]

  /** The preview lists exactly the interpolated channels, in order. */
  lemma {:induction false} PreviewFunctionsInOrder(cs: seq<Channel>, p: map<Channel, real>, intensity: real)
    requires |cs| > 0
    ensures Functions(PreviewTokens(cs, p, intensity)) == PreviewFunctions(cs, p, intensity)
  {
    var f := Interpolated(cs[0], p, intensity);
    if |cs| == 1 {
      SingleFunction(f);
    } else {
      var rest := PreviewTokens(cs[1..], p, intensity);
      PreviewFunctionsInOrder(cs[1..], p, intensity);
      FunctionsAppend([f, Sep], rest);
      SeparatedFunction(f);
      PreviewFunctionsCons(cs, p, intensity);
    }
  }

  lemma PreviewFunctionsCons(cs: seq<Channel>, p: map<Channel, real>, intensity: real)
    requires |cs| > 0
    ensures PreviewFunctions(cs, p, intensity) == [Interpolated(cs[0], p, intensity)] + PreviewFunctions(cs[1..], p, intensity)
  {
  }

  lemma SingleFunction(t: Token)
    requires t.Fn?
    ensures Functions([t]) == [t]
  {
    assert [t][1..] == [];
  }

  lemma SeparatedFunction(t: Token)
    requires t.Fn?
    ensures Functions([t, Sep]) == [t]
  {
    assert [t, Sep][1..] == [Sep];
    assert [Sep][1..] == [];
  }

  /** A channel the filter leaves out, or any channel at intensity 0, sits at its baseline. */
  lemma InterpolatedAtBaseline(c: Channel, p: map<Channel, real>, intensity: real)
    requires c !in p || intensity == 0.0
    ensures Interpolated(c, p, intensity) == Fn(c.CssName(), c.Baseline(), c.Unit())
  {
  }

  /** At intensity 100 a defined channel reaches its target. */
  lemma InterpolatedAtFull(c: Channel, p: map<Channel, real>)
    ensures Interpolated(c, p, 100.0) == Fn(c.CssName(), if c in p then p[c] else c.Baseline(), c.Unit())
  {
  }

  /** At intensity 150 a defined channel runs half as far again past its target. */
  lemma InterpolatedAtOverdrive(c: Channel, p: map<Channel, real>)
    requires c in p
    ensures Interpolated(c, p, 150.0) == Fn(c.CssName(), Overdriven(c.Baseline(), p[c]), c.Unit())
  {
  }

  /**
   * The preview of a real filter lists six functions: channel i of the fixed order,
   * interpolated from its baseline by the intensity.
   */
  lemma CssFunctions(selectedFilter: string, intensity: real, filter: FilterDef)
    requires Find(Catalogue, selectedFilter) == Some(filter) && filter.id != "none"
    ensures CssFilterString(selectedFilter, intensity).FunctionList?
    ensures Functions(CssFilterString(selectedFilter, intensity).tokens)
            == PreviewFunctions(ChannelOrder, filter.properties, intensity)
  {
    PreviewFunctionsInOrder(ChannelOrder, filter.properties, intensity);
  }

  /** Function i of a real filter's preview is channel i of the fixed order, interpolated. */
  lemma ChannelFunction(selectedFilter: string, intensity: real, filter: FilterDef, i: nat)
    requires Find(Catalogue, selectedFilter) == Some(filter) && filter.id != "none"
    requires i < |ChannelOrder|
    ensures var fns := Functions(CssFilterString(selectedFilter, intensity).tokens);
            |fns| == 6 && fns[i] == Interpolated(ChannelOrder[i], filter.properties, intensity)
  {
    CssFunctions(selectedFilter, intensity, filter);
  }

  /** Intensity 0 neutralises any real filter: every channel at its baseline, in the fixed order. */
  lemma CssAtZeroIsNeutral(selectedFilter: string)
    ensures var r := CssFilterString(selectedFilter, 0.0);
            r.FunctionList? ==> Functions(r.tokens) == NeutralPreview
  {
    var found := Find(Catalogue, selectedFilter);
    if found.Some? && found.value.id != "none" {
      CssFunctions(selectedFilter, 0.0, found.value);
      NeutralChannels(found.value.properties);
    }
  }

  lemma NeutralChannels(p: map<Channel, real>)
    ensures PreviewFunctions(ChannelOrder, p, 0.0) == NeutralPreview
  {
    InterpolatedAtBaseline(Brightness, p, 0.0);
    InterpolatedAtBaseline(Contrast, p, 0.0);
    InterpolatedAtBaseline(Saturate, p, 0.0);
    InterpolatedAtBaseline(Grayscale, p, 0.0);
    InterpolatedAtBaseline(Sepia, p, 0.0);
    InterpolatedAtBaseline(HueRotate, p, 0.0);
  }

  /**
   * Intensity 100 gives every defined channel exactly its target, and every other
   * channel its baseline.
   */
  lemma CssAtFullIsTarget(selectedFilter: string, filter: FilterDef, i: nat)
    requires Find(Catalogue, selectedFilter) == Some(filter) && filter.id != "none"
    requires i < |ChannelOrder|
    ensures var fns := Functions(CssFilterString(selectedFilter, 100.0).tokens);
            var c := ChannelOrder[i];
            |fns| == 6 &&
            fns[i] == Fn(c.CssName(), if c in filter.properties then filter.properties[c] else c.Baseline(), c.Unit())
  {
    ChannelFunction(selectedFilter, 100.0, filter, i);
    InterpolatedAtFull(ChannelOrder[i], filter.properties);
  }

  /** A channel the filter leaves out stays at its baseline whatever the intensity. */
  lemma CssUndefinedIsBaseline(selectedFilter: string, filter: FilterDef, intensity: real, i: nat)
    requires Find(Catalogue, selectedFilter) == Some(filter) && filter.id != "none"
    requires i < |ChannelOrder| && ChannelOrder[i] !in filter.properties
    ensures var fns := Functions(CssFilterString(selectedFilter, intensity).tokens);
            var c := ChannelOrder[i];
            |fns| == 6 && fns[i] == Fn(c.CssName(), c.Baseline(), c.Unit())
  {
    ChannelFunction(selectedFilter, intensity, filter, i);
    InterpolatedAtBaseline(ChannelOrder[i], filter.properties, intensity);
  }

  /**
   * The intensity is not clamped: at 150 a defined channel runs half as far again past
   * its target.
   */
  lemma CssOverdrive(selectedFilter: string, filter: FilterDef, i: nat)
    requires Find(Catalogue, selectedFilter) == Some(filter) && filter.id != "none"
    requires i < |ChannelOrder| && ChannelOrder[i] in filter.properties
    ensures var fns := Functions(CssFilterString(selectedFilter, 150.0).tokens);
            var c := ChannelOrder[i];
            |fns| == 6 && fns[i] == Fn(c.CssName(), Overdriven(c.Baseline(), filter.properties[c]), c.Unit())
  {
    ChannelFunction(selectedFilter, 150.0, filter, i);
    InterpolatedAtOverdrive(ChannelOrder[i], filter.properties);
  }

  /** "noir" at full intensity: brightness 90%, contrast 150%, saturate 100%, grayscale 100%, sepia 0%, hue-rotate 0deg. */
  lemma NoirAtFull()
    ensures CssFilterString("noir", 100.0).FunctionList?
    ensures Functions(CssFilterString("noir", 100.0).tokens) == [
      Fn("brightness", 90.0, Percent), Fn("contrast", 150.0, Percent), Fn("saturate", 100.0, Percent),
      Fn("grayscale", 100.0, Percent), Fn("sepia", 0.0, Percent), Fn("hue-rotate", 0.0, Deg)]
  {
    var noir := Catalogue[2];
    assert Find(Catalogue, "noir") == Some(noir) by {
      assert Catalogue[0].id != "noir";
      assert Catalogue[1].id != "noir";
    }
    CssFunctions("noir", 100.0, noir);
    NoirChannels(noir.properties);
  }

  lemma NoirChannels(p: map<Channel, real>)
    requires p == map[Grayscale := 100.0, Contrast := 150.0, Brightness := 90.0]
    ensures PreviewFunctions(ChannelOrder, p, 100.0) == [
      Fn("brightness", 90.0, Percent), Fn("contrast", 150.0, Percent), Fn("saturate", 100.0, Percent),
      Fn("grayscale", 100.0, Percent), Fn("sepia", 0.0, Percent), Fn("hue-rotate", 0.0, Deg)]
  {
    var r := PreviewFunctions(ChannelOrder, p, 100.0);
    assert r[0] == Fn("brightness", 90.0, Percent) by { InterpolatedAtFull(Brightness, p); }
    assert r[1] == Fn("contrast", 150.0, Percent) by { InterpolatedAtFull(Contrast, p); }
    assert r[2] == Fn("saturate", 100.0, Percent) by { InterpolatedAtFull(Saturate, p); }
    assert r[3] == Fn("grayscale", 100.0, Percent) by { InterpolatedAtFull(Grayscale, p); }
    assert r[4] == Fn("sepia", 0.0, Percent) by { InterpolatedAtFull(Sepia, p); }
    assert r[5] == Fn("hue-rotate", 0.0, Deg) by { InterpolatedAtFull(HueRotate, p); }
    var expected := [
      Fn("brightness", 90.0, Percent), Fn("contrast", 150.0, Percent), Fn("saturate", 100.0, Percent),
      Fn("grayscale", 100.0, Percent), Fn("sepia", 0.0, Percent), Fn("hue-rotate", 0.0, Deg)];
    forall k | 0 <= k < 6 ensures r[k] == expected[k] {
    }
    assert r == expected;
  }

  /** The channel names a filter defines. */
  function DefinedNames(properties: map<Channel, real>): set<string> {
    set c | c in properties :: c.CssName()
  }

  /** The functions of `fns` whose name is in `names`, in order. */
  function KeepNamed(fns: seq<Token>, names: set<string>): seq<Token> {
    if |fns| == 0 then []
    else (if fns[0].Fn? && fns[0].name in names then [fns[0]] else []) + KeepNamed(fns[1..], names)
  }

  /** The thumbnail lists, in channel order, the raw target of each defined channel. */
  lemma ThumbnailFunctions(filter: FilterDef)
    requires filter.id != "none"
    ensures ThumbnailFilterString(filter).FunctionList?
    ensures Functions(ThumbnailFilterString(filter).tokens) == Targets(ChannelOrder, filter.properties)
  {
    TrimKeepsFunctions(ThumbnailTokens(ChannelOrder, filter.properties));
    ThumbnailTokensFunctions(ChannelOrder, filter.properties);
  }

  lemma {:induction false} ThumbnailTokensFunctions(cs: seq<Channel>, p: map<Channel, real>)
    ensures Functions(ThumbnailTokens(cs, p)) == Targets(cs, p)
  {
    if |cs| > 0 {
      ThumbnailTokensFunctions(cs[1..], p);
      FunctionsAppend(RawPiece(cs[0], p), ThumbnailTokens(cs[1..], p));
      RawPieceFunctions(cs[0], p);
    }
  }

  lemma RawPieceFunctions(c: Channel, p: map<Channel, real>)
    ensures Functions(RawPiece(c, p)) == if c in p then [Fn(c.CssName(), p[c], c.Unit())] else []
  {
    if c in p {
      if c == HueRotate {
        SingleFunction(Fn(c.CssName(), p[c], c.Unit()));
      } else {
        SeparatedFunction(Fn(c.CssName(), p[c], c.Unit()));
      }
    }
  }

  /**
   * A thumbnail shows what the preview shows at intensity 100, restricted to the channels
   * the filter defines: the same functions, values and units, in the same order.
   */
  lemma ThumbnailIsFullPreviewOfDefinedChannels(selectedFilter: string, filter: FilterDef)
    requires Find(Catalogue, selectedFilter) == Some(filter) && filter.id != "none"
    ensures ThumbnailFilterString(filter).FunctionList?
    ensures Functions(ThumbnailFilterString(filter).tokens)
            == KeepNamed(Functions(CssFilterString(selectedFilter, 100.0).tokens), DefinedNames(filter.properties))
  {
    CssFunctions(selectedFilter, 100.0, filter);
    ThumbnailFunctions(filter);
    KeepDefined(ChannelOrder, filter.properties);
  }

  /** Keeping the preview's defined channels at intensity 100 gives their raw targets. */
  lemma {:induction false} KeepDefined(cs: seq<Channel>, p: map<Channel, real>)
    ensures KeepNamed(PreviewFunctions(cs, p, 100.0), DefinedNames(p)) == Targets(cs, p)
  {
    if |cs| > 0 {
      var fns := PreviewFunctions(cs, p, 100.0);
      assert fns[1..] == PreviewFunctions(cs[1..], p, 100.0);
      KeepDefined(cs[1..], p);
      NameDefined(cs[0], p);
      InterpolatedAtFull(cs[0], p);
    }
  }

  /** A channel's name is among the defined names exactly when the channel is defined. */
  lemma NameDefined(c: Channel, properties: map<Channel, real>)
    ensures c.CssName() in DefinedNames(properties) <==> c in properties
  {
    if c.CssName() in DefinedNames(properties) {
      var d :| d in properties && d.CssName() == c.CssName();
      assert d.CssName()[..2] == c.CssName()[..2];
    }
  }

  // ---- token-sequence vocabulary ----

  /** Functions sit at even positions and separators at odd ones. */
  ghost predicate Alternating(ts: seq<Token>) {
    forall i :: 0 <= i < |ts| ==> (ts[i].Sep? <==> i % 2 == 1)
  }

  /**
   * Functions separated by exactly one space, with no space at either end: what a
   * rendered filter value needs so that it has no leading or trailing whitespace.
   */
  ghost predicate WellSpaced(ts: seq<Token>) {
    Alternating(ts) && (|ts| == 0 || ts[|ts| - 1].Fn?)
  }

  /** The filter functions of a token sequence, in order, without separators. */
  function Functions(ts: seq<Token>): seq<Token> {
    if |ts| == 0 then [] else (if ts[0].Fn? then [ts[0]] else []) + Functions(ts[1..])
  }

  /** `trim` at the front: drops the leading separators and nothing else. */
  function TrimStart(ts: seq<Token>): (r: seq<Token>)
    ensures |r| <= |ts| && r == ts[|ts| - |r|..]
    ensures forall i :: 0 <= i < |ts| - |r| ==> ts[i].Sep?
    ensures |r| > 0 ==> r[0].Fn?
  {
    if |ts| > 0 && ts[0].Sep? then TrimStart(ts[1..]) else ts
  }

  /** `trim` at the back: drops the trailing separators and nothing else. */
  function TrimEnd(ts: seq<Token>): (r: seq<Token>)
    ensures |r| <= |ts| && r == ts[..|r|]
    ensures forall i :: |r| <= i < |ts| ==> ts[i].Sep?
    ensures |r| > 0 ==> r[|r| - 1].Fn?
  {
    if |ts| > 0 && ts[|ts| - 1].Sep? then TrimEnd(ts[..|ts| - 1]) else ts
  }

  /** `String.prototype.trim` on a token sequence. */
  function Trim(ts: seq<Token>): (r: seq<Token>)
    ensures |r| > 0 ==> r[0].Fn? && r[|r| - 1].Fn?
    ensures |r| <= |ts|
    ensures (exists i :: 0 <= i < |ts| && ts[i].Fn?) ==> |r| > 0
  {
    TrimEnd(TrimStart(ts))
  }

  // ---- lemmas about the token vocabulary ----

  lemma {:induction false} AlternatingPairs(a: seq<Token>, b: seq<Token>)
    requires Alternating(a) && |a| % 2 == 0 && Alternating(b)
    ensures Alternating(a + b)
  {
    forall i | 0 <= i < |a + b| ensures ((a + b)[i].Sep? <==> i % 2 == 1) {
      if i >= |a| {
        assert (a + b)[i] == b[i - |a|];
        assert (i - |a|) % 2 == i % 2;
      }
    }
  }

  /** The untrimmed thumbnail value alternates functions and spaces when hue-rotate comes last. */
  lemma {:induction false} ThumbnailAlternating(cs: seq<Channel>, p: map<Channel, real>)
    requires forall i :: 0 <= i < |cs| - 1 ==> cs[i] != HueRotate
    ensures Alternating(ThumbnailTokens(cs, p))
  {
    if |cs| > 0 {
      ThumbnailAlternating(cs[1..], p);
      if |cs| == 1 {
        assert ThumbnailTokens(cs, p) == RawPiece(cs[0], p);
      } else {
        AlternatingPairs(RawPiece(cs[0], p), ThumbnailTokens(cs[1..], p));
      }
    }
  }

  /** Trimming an alternating sequence leaves it well spaced. */
  lemma TrimAlternating(ts: seq<Token>)
    requires Alternating(ts)
    ensures WellSpaced(Trim(ts))
  {
    assert |ts| > 0 ==> ts[0].Fn?;
    assert TrimStart(ts) == ts;
    var r := TrimEnd(ts);
    assert forall i :: 0 <= i < |r| ==> r[i] == ts[i];
  }

  lemma {:induction false} FunctionsAppend(a: seq<Token>, b: seq<Token>)
    ensures Functions(a + b) == Functions(a) + Functions(b)
  {
    if |a| == 0 {
      assert a + b == b;
    } else {
      var head := if a[0].Fn? then [a[0]] else [];
      calc {
        Functions(a + b);
      == { assert (a + b)[0] == a[0]; assert (a + b)[1..] == a[1..] + b; }
        head + Functions(a[1..] + b);
      == { FunctionsAppend(a[1..], b); }
        head + (Functions(a[1..]) + Functions(b));
      ==
        (head + Functions(a[1..])) + Functions(b);
      }
    }
  }

  /** Trimming removes separators only: the functions are those of the untrimmed value. */
  lemma TrimKeepsFunctions(ts: seq<Token>)
    ensures Functions(Trim(ts)) == Functions(ts)
  {
    TrimStartKeepsFunctions(ts);
    TrimEndKeepsFunctions(TrimStart(ts));
  }

  lemma TrimStartKeepsFunctions(ts: seq<Token>)
    ensures Functions(TrimStart(ts)) == Functions(ts)
  {
    var s := TrimStart(ts);
    var dropped := ts[..|ts| - |s|];
    AllSeparators(dropped);
    assert ts == dropped + s;
    FunctionsAppend(dropped, s);
  }

  lemma TrimEndKeepsFunctions(ts: seq<Token>)
    ensures Functions(TrimEnd(ts)) == Functions(ts)
  {
    var r := TrimEnd(ts);
    var dropped := ts[|r|..];
    AllSeparators(dropped);
    assert ts == r + dropped;
    FunctionsAppend(r, dropped);
  }

  lemma {:induction false} AllSeparators(ts: seq<Token>)
    requires forall i :: 0 <= i < |ts| ==> ts[i].Sep?
    ensures Functions(ts) == []
  {
    if |ts| > 0 {
      AllSeparators(ts[1..]);
    }
  }
}
