/**
 * Style preset resolution: `convertFeedbackToBitmapFeedback` of the TCP
 * handler (tally-aware) and of the USB device (tally-free).
 *
 * The configured presets are the values of the `stylePresets` record, in
 * its enumeration order; `None` stands for a configuration without a
 * `stylePresets` entry (an empty record is present, and resolves nothing).
 */
module Styles {
  import opened Wrappers
  import opened Feedback

  /** `Object.values(stylePresets).find(preset => preset.id === id)`. */
  function FindPreset(presets: seq<StylePreset>, id: string): (r: Option<StylePreset>)
    ensures r.None? <==> forall i :: 0 <= i < |presets| ==> presets[i].id != id
    ensures r.Some? ==> exists i :: 0 <= i < |presets| && presets[i] == r.value && presets[i].id == id &&
                                    forall j :: 0 <= j < i ==> presets[j].id != id
  {
    if presets == [] then None
    else if presets[0].id == id then Some(presets[0])
    else
      var r := FindPreset(presets[1..], id);
      assert r.Some? ==> exists i :: 0 <= i < |presets[1..]| && presets[1..][i] == r.value && presets[1..][i].id == id &&
                                     forall j :: 0 <= j < i ==> presets[1..][j].id != id;
      if r.Some? then
        var i :| 0 <= i < |presets[1..]| && presets[1..][i] == r.value && presets[1..][i].id == id &&
                 forall j :: 0 <= j < i ==> presets[1..][j].id != id;
        assert presets[i + 1] == r.value;
        assert forall j :: 0 <= j < i + 1 ==> presets[j].id != id by {
          forall j | 0 <= j < i + 1 ensures presets[j].id != id {
            if j > 0 { assert presets[j] == presets[1..][j - 1]; }
          }
        }
        r
      else
        assert forall i :: 1 <= i < |presets| ==> presets[i] == presets[1..][i - 1];
        r
  }

  /** The tally qualifiers, in the order they are tried. */
  datatype Qualifier = Active | Next | Other | Present

  function Suffix(q: Qualifier): string {
    match q
    case Active => ":active"
    case Next => ":next"
    case Other => ":other"
    case Present => ":present"
  }

  /** The only qualifier the handler tries: the highest tally bit that is set. */
  function HighestQualifier(t: Tally): (r: Option<Qualifier>)
    ensures r.None? <==> t == NoTally
    ensures r == Some(Active) <==> t.active
    ensures r == Some(Next) <==> !t.active && t.next
    ensures r == Some(Other) <==> !t.active && !t.next && t.other
    ensures r == Some(Present) <==> !t.active && !t.next && !t.other && t.present
  {
    if t.active then Some(Active)
    else if t.next then Some(Next)
    else if t.other then Some(Other)
    else if t.present then Some(Present)
    else None
  }

  /**
   * The preset one class name resolves to under a tally: the preset for
   * the highest qualifier if there is one, otherwise the bare name. Lower
   * qualifiers are never tried.
   */
  function ResolveName(presets: seq<StylePreset>, name: string, t: Tally): (r: Option<StylePreset>)
    ensures r.Some? ==> r.value in presets
    ensures r.Some? ==> r.value.id == name ||
                        (HighestQualifier(t).Some? && r.value.id == name + Suffix(HighestQualifier(t).value))
    ensures HighestQualifier(t).Some? && FindPreset(presets, name + Suffix(HighestQualifier(t).value)).Some? ==>
              r == FindPreset(presets, name + Suffix(HighestQualifier(t).value))
    ensures r.None? <==>
              FindPreset(presets, name).None? &&
              (HighestQualifier(t).None? || FindPreset(presets, name + Suffix(HighestQualifier(t).value)).None?)
  {
    var bare := FindPreset(presets, name);
    match HighestQualifier(t)
    case None => bare
    case Some(q) => FindPreset(presets, name + Suffix(q)).OrElse(bare)
  }

  /** Without a qualifier, or without a preset for the qualified name, a name resolves to its bare preset. */
  lemma ResolveNameBareFallback(presets: seq<StylePreset>, name: string, t: Tally)
    requires HighestQualifier(t).None? || FindPreset(presets, name + Suffix(HighestQualifier(t).value)).None?
    ensures ResolveName(presets, name, t) == FindPreset(presets, name)
  {
  }

  /** The first class name, in list order, that resolves; its preset. */
  function FirstResolved(presets: seq<StylePreset>, names: seq<string>, t: Tally): (r: Option<StylePreset>)
    ensures r.None? <==> forall i :: 0 <= i < |names| ==> ResolveName(presets, names[i], t).None?
    ensures r.Some? ==> exists i :: 0 <= i < |names| && ResolveName(presets, names[i], t) == r &&
                                    forall j :: 0 <= j < i ==> ResolveName(presets, names[j], t).None?
  {
    if names == [] then None
    else
      var here := ResolveName(presets, names[0], t);
      if here.Some? then here
      else
        var r := FirstResolved(presets, names[1..], t);
        assert forall i :: 1 <= i < |names| ==> names[i] == names[1..][i - 1];
        if r.Some? then
          var i :| 0 <= i < |names[1..]| && ResolveName(presets, names[1..][i], t) == r &&
                   forall j :: 0 <= j < i ==> ResolveName(presets, names[1..][j], t).None?;
          assert ResolveName(presets, names[i + 1], t) == r;
          r
        else r
  }

  /** The TCP handler's resolution: tally-qualified presets are preferred. */
  function ConvertTallyAware(fb: Feedback, presets: Option<seq<StylePreset>>): (r: Feedback)
    ensures r.(style := fb.style) == fb
    ensures fb.styleClassNames.None? || presets.None? ==> r == fb
  {
    if fb.styleClassNames.None? || presets.None? then fb
    else
      match FirstResolved(presets.value, fb.styleClassNames.value, fb.tally)
      case None => fb
      case Some(p) => fb.(style := Some(p))
  }

  /** The first class name, in list order, that names a preset exactly. */
  function FirstBareMatch(presets: seq<StylePreset>, names: seq<string>): (r: Option<StylePreset>)
    ensures r.None? <==> forall i :: 0 <= i < |names| ==> FindPreset(presets, names[i]).None?
    ensures r.Some? ==> exists i :: 0 <= i < |names| && FindPreset(presets, names[i]) == r &&
                                    forall j :: 0 <= j < i ==> FindPreset(presets, names[j]).None?
  {
    if names == [] then None
    else
      var here := FindPreset(presets, names[0]);
      if here.Some? then here
      else
        var r := FirstBareMatch(presets, names[1..]);
        assert forall i :: 1 <= i < |names| ==> names[i] == names[1..][i - 1];
        if r.Some? then
          var i :| 0 <= i < |names[1..]| && FindPreset(presets, names[1..][i]) == r &&
                   forall j :: 0 <= j < i ==> FindPreset(presets, names[1..][j]).None?;
          assert FindPreset(presets, names[i + 1]) == r;
          r
        else r
  }

  /** The USB device's resolution: tally is ignored, only bare ids are looked up. */
  function ConvertTallyFree(fb: Feedback, presets: Option<seq<StylePreset>>): (r: Feedback)
    ensures r.(style := fb.style) == fb
    ensures fb.styleClassNames.None? || presets.None? ==> r == fb
  {
    if fb.styleClassNames.None? || presets.None? then fb
    else
      match FirstBareMatch(presets.value, fb.styleClassNames.value)
      case None => fb
      case Some(p) => fb.(style := Some(p))
  }

  /** Which of the two resolutions a device uses. */
  datatype StyleMode = TallyAware | TallyFree

  function Convert(mode: StyleMode, fb: Feedback, presets: Option<seq<StylePreset>>): Feedback {
    match mode
    case TallyAware => ConvertTallyAware(fb, presets)
    case TallyFree => ConvertTallyFree(fb, presets)
  }

  /**
   * The feedback is returned as it is when it has no class names, no
   * presets are configured, or no class name resolves; otherwise it is
   * returned with the style of the first class name that resolves.
   */
  lemma TallyAwareOutcome(fb: Feedback, presets: Option<seq<StylePreset>>)
    ensures var r := ConvertTallyAware(fb, presets);
            (fb.styleClassNames.None? || presets.None? ||
             forall i :: 0 <= i < |fb.styleClassNames.value| ==>
               ResolveName(presets.value, fb.styleClassNames.value[i], fb.tally).None?) ==> r == fb
    ensures var r := ConvertTallyAware(fb, presets);
            fb.styleClassNames.Some? && presets.Some? ==>
              forall i :: 0 <= i < |fb.styleClassNames.value| &&
                          ResolveName(presets.value, fb.styleClassNames.value[i], fb.tally).Some? &&
                          (forall j :: 0 <= j < i ==> ResolveName(presets.value, fb.styleClassNames.value[j], fb.tally).None?) ==>
                r == fb.(style := ResolveName(presets.value, fb.styleClassNames.value[i], fb.tally))
  {
    if fb.styleClassNames.Some? && presets.Some? {
      var names := fb.styleClassNames.value;
      var ps := presets.value;
      forall i | 0 <= i < |names| && ResolveName(ps, names[i], fb.tally).Some? &&
                 (forall j :: 0 <= j < i ==> ResolveName(ps, names[j], fb.tally).None?)
        ensures ConvertTallyAware(fb, presets) == fb.(style := ResolveName(ps, names[i], fb.tally))
      {
        var r := FirstResolved(ps, names, fb.tally);
        var k :| 0 <= k < |names| && ResolveName(ps, names[k], fb.tally) == r &&
                 forall j :: 0 <= j < k ==> ResolveName(ps, names[j], fb.tally).None?;
        assert k == i;
      }
    }
  }

  /**
   * A tally-qualified preset never falls back to a LOWER qualifier: with
   * ACTIVE set, a preset `X:next` is not used even if it is the only one.
   */
  lemma NoFallbackToLowerQualifier(presets: seq<StylePreset>, name: string, t: Tally, q: Qualifier)
    requires HighestQualifier(t).Some? && q != HighestQualifier(t).value
    requires FindPreset(presets, name + Suffix(q)).Some?
    requires FindPreset(presets, name).None?
    requires FindPreset(presets, name + Suffix(HighestQualifier(t).value)).None?
    ensures ResolveName(presets, name, t).None?
  {
  }

  lemma {:induction false} FirstResolvedIgnoringTally(presets: seq<StylePreset>, names: seq<string>)
    ensures FirstResolved(presets, names, NoTally) == FirstBareMatch(presets, names)
  {
    if names != [] {
      FirstResolvedIgnoringTally(presets, names[1..]);
    }
  }

  /**
   * The USB device's resolution is the TCP handler's with the tally
   * cleared: the two agree on every feedback that carries no tally bit,
   * and the USB one never looks at the tally.
   */
  lemma TallyFreeIsTallyAwareWithoutTally(fb: Feedback, presets: Option<seq<StylePreset>>)
    ensures ConvertTallyFree(fb, presets) == ConvertTallyAware(fb.(tally := NoTally), presets).(tally := fb.tally)
    ensures fb.tally == NoTally ==> ConvertTallyFree(fb, presets) == ConvertTallyAware(fb, presets)
  {
    if fb.styleClassNames.Some? && presets.Some? {
      FirstResolvedIgnoringTally(presets.value, fb.styleClassNames.value);
    }
  }

  /**
   * With ACTIVE set and presets `X` and `X:active`, `X:active` is chosen;
   * with only `X`, `X` is chosen.
   */
  lemma ActiveQualifierExample(fb: Feedback, plain: StylePreset, active: StylePreset)
    requires fb.tally.active && fb.styleClassNames == Some(["X"])
    requires plain.id == "X" && active.id == "X:active"
    ensures ConvertTallyAware(fb, Some([plain, active])).style == Some(active)
    ensures ConvertTallyAware(fb, Some([plain])).style == Some(plain)
  {
    assert "X" + Suffix(Active) == "X:active";
    assert FindPreset([plain, active], "X:active") == Some(active);
    assert ResolveName([plain, active], "X", fb.tally) == Some(active);
    assert FirstResolved([plain, active], ["X"], fb.tally) == Some(active);
    assert FindPreset([plain], "X:active") == None;
    assert ResolveName([plain], "X", fb.tally) == Some(plain);
    assert FirstResolved([plain], ["X"], fb.tally) == Some(plain);
  }
}
