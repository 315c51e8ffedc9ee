/** `manage_monitors`: split the connected outputs into the laptop panel and the
    external outputs, pick docked or mobile mode, and build the argument list of
    one `xrandr` call. What `get_monitor_capabilities` would report is a
    parameter (`caps`); the call of xrandr itself is replaced by returning the
    argument list. */
module Layout {
  import opened Wrappers
  import opened Text
  import opened Seqs

  /** `get_monitor_capabilities` as an oracle: the first resolution xrandr lists
      for an output, or None. (The refresh rate it also returns is never used.) */
  type Capabilities = string -> Option<string>

  /** `manage_monitors` indexes the list of panels with `[0]`; an empty list
      raises before any argument is built. */
  datatype Failure = NoLaptopMonitor

  /** The built-in panel is the output whose connector name contains "eDP". */
  predicate IsPanel(name: string) {
    Contains(name, "eDP")
  }

  predicate IsExternal(name: string) {
    !IsPanel(name)
  }

  /** `[m for m in monitors if not 'eDP' in m]`, in input order. Together with
      the panels it accounts for every output. */
  function Externals(monitors: seq<string>): (externals: seq<string>)
    ensures |externals| + |Filter(monitors, IsPanel)| == |monitors|
  {
    PanelsAndExternals(monitors);
    Filter(monitors, IsExternal)
  }

  /** Every output is a panel or an external output, never both. */
  lemma {:induction false} PanelsAndExternals(monitors: seq<string>)
    ensures |Filter(monitors, IsExternal)| + |Filter(monitors, IsPanel)| == |monitors|
  {
    if monitors != [] {
      PanelsAndExternals(monitors[1..]);
    }
  }

  /** The comprehension keeps input order and multiplicity: the externals of a
      concatenation are the externals of each part, one after the other. */
  lemma ExternalsAppend(a: seq<string>, b: seq<string>)
    ensures Externals(a + b) == Externals(a) + Externals(b)
  {
    FilterAppend(a, b, IsExternal);
  }

  /** A single output is kept exactly when its name does not contain "eDP". */
  lemma ExternalsOne(m: string)
    ensures Externals([m]) == if IsPanel(m) then [] else [m]
  {
    assert [m][1..] == [];
  }

  /** The externals are exactly the non-panel outputs. */
  lemma ExternalsMembers(monitors: seq<string>)
    ensures forall k :: 0 <= k < |Externals(monitors)| ==>
              Externals(monitors)[k] in monitors && !IsPanel(Externals(monitors)[k])
    ensures forall k :: 0 <= k < |monitors| && !IsPanel(monitors[k]) ==> monitors[k] in Externals(monitors)
  {
    FilterMembers(monitors, IsExternal);
  }

  /** `[m for m in monitors if 'eDP' in m][0]`, None where that raises. */
  function LaptopMonitor(monitors: seq<string>): (laptop: Option<string>)
    ensures laptop.Some? ==> laptop.value in monitors && IsPanel(laptop.value)
  {
    var panels := Filter(monitors, IsPanel);
    FilterMembers(monitors, IsPanel);
    if panels == [] then None else Some(panels[0])
  }

  /** There is a laptop exactly when some output is a panel. */
  lemma LaptopMonitorSpec(monitors: seq<string>)
    ensures LaptopMonitor(monitors).None? <==> forall k :: 0 <= k < |monitors| ==> !IsPanel(monitors[k])
  {
    FilterMembers(monitors, IsPanel);
  }

  /** The laptop is the first output whose name contains "eDP". */
  lemma LaptopIsFirstPanel(monitors: seq<string>, i: nat)
    requires i < |monitors| && IsPanel(monitors[i])
    requires forall j :: 0 <= j < i ==> !IsPanel(monitors[j])
    ensures LaptopMonitor(monitors) == Some(monitors[i])
  {
    FilterHead(monitors, IsPanel, i);
  }

  // ---------------------------------------------------------------------------
  // xrandr directives and their tokens
  // ---------------------------------------------------------------------------

  /** One option of the xrandr command line, with its argument. */
  datatype XOption =
    | Output(name: string)
    | Mode(resolution: string)
    | Auto
    | Above(relativeTo: string)
    | Primary
    | Off

  function Tokens(o: XOption): seq<string> {
    match o
    case Output(name) => ["--output", name]
    case Mode(resolution) => ["--mode", resolution]
    case Auto => ["--auto"]
    case Above(relativeTo) => ["--above", relativeTo]
    case Primary => ["--primary"]
    case Off => ["--off"]
  }

  /** The argument tokens of a sequence of options. */
  function Render(os: seq<XOption>): seq<string> {
    if os == [] then [] else Tokens(os[0]) + Render(os[1..])
  }

  function Prepend(o: XOption, rest: Option<seq<XOption>>): Option<seq<XOption>> {
    match rest
    case None => None
    case Some(os) => Some([o] + os)
  }

  /** Reads argument tokens back as options, the way xrandr does: a flag takes
      the next token as its argument whatever that token is. */
  function ReadBack(tokens: seq<string>): Option<seq<XOption>>
    decreases |tokens|
  {
    if tokens == [] then Some([])
    else if tokens[0] == "--auto" then Prepend(Auto, ReadBack(tokens[1..]))
    else if tokens[0] == "--primary" then Prepend(Primary, ReadBack(tokens[1..]))
    else if tokens[0] == "--off" then Prepend(Off, ReadBack(tokens[1..]))
    else if |tokens| < 2 then None
    else if tokens[0] == "--output" then Prepend(Output(tokens[1]), ReadBack(tokens[2..]))
    else if tokens[0] == "--mode" then Prepend(Mode(tokens[1]), ReadBack(tokens[2..]))
    else if tokens[0] == "--above" then Prepend(Above(tokens[1]), ReadBack(tokens[2..]))
    else None
  }

  lemma {:induction false} RenderAppend(a: seq<XOption>, b: seq<XOption>)
    ensures Render(a + b) == Render(a) + Render(b)
  {
    if a == [] {
      assert a + b == b;
    } else {
      assert (a + b)[0] == a[0];
      assert (a + b)[1..] == a[1..] + b;
      RenderAppend(a[1..], b);
    }
  }

  /** The tokens of one option are read back as that option, whatever follows. */
  lemma ReadBackStep(o: XOption, rest: seq<string>)
    ensures ReadBack(Tokens(o) + rest) == Prepend(o, ReadBack(rest))
  {
    var ts := Tokens(o) + rest;
    if o.Auto? || o.Primary? || o.Off? {
      assert ts[0] == Tokens(o)[0] && ts[1..] == rest;
    } else {
      assert ts[0] == Tokens(o)[0] && ts[1] == Tokens(o)[1] && ts[2..] == rest;
    }
  }

  /** The tokens determine the options: no two option sequences render alike,
      so what is proved about the options holds of the command line. */
  lemma {:induction false} ReadBackRender(os: seq<XOption>)
    ensures ReadBack(Render(os)) == Some(os)
  {
    if os != [] {
      ReadBackRender(os[1..]);
      ReadBackStep(os[0], Render(os[1..]));
      assert [os[0]] + os[1..] == os;
    }
  }

  // ---------------------------------------------------------------------------
  // The layout
  // ---------------------------------------------------------------------------

  /** `--output monitor --mode res --auto --above laptop` (line 82). */
  function Placement(monitor: string, res: string, laptop: string): seq<XOption> {
    [Output(monitor), Mode(res), Auto, Above(laptop)]
  }

  /** `--output laptop --mode res --auto` (lines 90 and 96). */
  function Configure(laptop: string, res: string): seq<XOption> {
    [Output(laptop), Mode(res), Auto]
  }

  /** What one pass of the docked loop adds for `monitor` (lines 79-85), when
      `primarySet` says whether `--primary` was already given. */
  function PlaceExternal(monitor: string, laptop: string, caps: Capabilities, primarySet: bool): seq<XOption> {
    match caps(monitor)
    case None => []
    case Some(res) => Placement(monitor, res, laptop) + (if primarySet then [] else [Primary])
  }

  /** What the docked loop (lines 78-85) adds for `externals`. */
  function Docking(externals: seq<string>, laptop: string, caps: Capabilities, primarySet: bool): seq<XOption>
  {
    if externals == [] then []
    else
      PlaceExternal(externals[0], laptop, caps, primarySet)
      + Docking(externals[1..], laptop, caps, primarySet || caps(externals[0]).Some?)
  }

  /** The laptop in docked mode: set up only when its capabilities are known. */
  function LaptopDocked(laptop: string, caps: Capabilities): seq<XOption> {
    match caps(laptop)
    case None => []
    case Some(res) => Configure(laptop, res)
  }

  /** The laptop in mobile mode: with its mode when known, else `--auto` alone. */
  function LaptopMobile(laptop: string, caps: Capabilities): seq<XOption> {
    match caps(laptop)
    case None => [Output(laptop), Auto]
    case Some(res) => Configure(laptop, res)
  }

  /** `--output m --off` for every external output (lines 100-101). */
  function Offs(externals: seq<string>): seq<XOption> {
    if externals == [] then [] else [Output(externals[0]), Off] + Offs(externals[1..])
  }

  /** Docked mode when there are external outputs (lines 75-90), else mobile
      mode (lines 91-98). */
  function Setup(externals: seq<string>, laptop: string, caps: Capabilities): seq<XOption> {
    if externals != [] then Docking(externals, laptop, caps, false) + LaptopDocked(laptop, caps)
    else LaptopMobile(laptop, caps)
  }

  /** The options `manage_monitors` passes to xrandr. */
  function Plan(monitors: seq<string>, caps: Capabilities): Result<seq<XOption>, Failure> {
    match LaptopMonitor(monitors)
    case None => Failure(NoLaptopMonitor)
    case Some(laptop) =>
      var externals := Externals(monitors);
      Success(Setup(externals, laptop, caps) + Offs(externals))
  }

  /** The argument list of the xrandr call. */
  function CommandLine(monitors: seq<string>, caps: Capabilities): Result<seq<string>, Failure> {
    match Plan(monitors, caps)
    case Failure(e) => Failure(e)
    case Success(plan) => Success(["xrandr"] + Render(plan))
  }

  /** Some output of `externals` has known capabilities. */
  predicate AnyKnown(externals: seq<string>, caps: Capabilities) {
    exists i :: 0 <= i < |externals| && caps(externals[i]).Some?
  }

  // ---------------------------------------------------------------------------
  // The imperative builder
  // ---------------------------------------------------------------------------

  lemma DockingStep(externals: seq<string>, laptop: string, caps: Capabilities, primarySet: bool)
    requires externals != []
    ensures Render(Docking(externals, laptop, caps, primarySet)) ==
            Render(PlaceExternal(externals[0], laptop, caps, primarySet))
            + Render(Docking(externals[1..], laptop, caps, primarySet || caps(externals[0]).Some?))
  {
    RenderAppend(PlaceExternal(externals[0], laptop, caps, primarySet),
                 Docking(externals[1..], laptop, caps, primarySet || caps(externals[0]).Some?));
  }

  lemma RenderPlacement(monitor: string, res: string, laptop: string)
    ensures Render(Placement(monitor, res, laptop))
            == ["--output", monitor, "--mode", res, "--auto", "--above", laptop]
  {
    var above: seq<XOption> := [Above(laptop)];
    var auto := [Auto] + above;
    var mode := [Mode(res)] + auto;
    assert above[1..] == [] && auto[1..] == above && mode[1..] == auto;
    assert Render(above) == ["--above", laptop];
    assert Render(auto) == ["--auto", "--above", laptop];
    assert Render(mode) == ["--mode", res, "--auto", "--above", laptop];
    assert Placement(monitor, res, laptop) == [Output(monitor)] + mode;
    assert ([Output(monitor)] + mode)[1..] == mode;
  }

  lemma PlaceExternalTokens(monitor: string, laptop: string, caps: Capabilities, primarySet: bool)
    ensures caps(monitor).None? ==> Render(PlaceExternal(monitor, laptop, caps, primarySet)) == []
    ensures caps(monitor).Some? ==>
            Render(PlaceExternal(monitor, laptop, caps, primarySet)) ==
            ["--output", monitor, "--mode", caps(monitor).value, "--auto", "--above", laptop]
            + (if primarySet then [] else ["--primary"])
  {
    if caps(monitor).Some? {
      var res := caps(monitor).value;
      RenderAppend(Placement(monitor, res, laptop), if primarySet then [] else [Primary]);
      RenderPlacement(monitor, res, laptop);
      assert Render([Primary]) == ["--primary"];
    }
  }

  lemma LaptopTokens(laptop: string, caps: Capabilities)
    ensures caps(laptop).None? ==> Render(LaptopDocked(laptop, caps)) == []
    ensures caps(laptop).None? ==> Render(LaptopMobile(laptop, caps)) == ["--output", laptop, "--auto"]
    ensures caps(laptop).Some? ==>
            Render(LaptopDocked(laptop, caps)) == Render(LaptopMobile(laptop, caps))
            == ["--output", laptop, "--mode", caps(laptop).value, "--auto"]
  {
    if caps(laptop).Some? {
      RenderConfigure(laptop, caps(laptop).value);
    } else {
      RenderAppend([Output(laptop)], [Auto]);
    }
  }

  lemma RenderConfigure(laptop: string, res: string)
    ensures Render(Configure(laptop, res)) == ["--output", laptop, "--mode", res, "--auto"]
  {
    RenderAppend([Output(laptop)], [Mode(res), Auto]);
    RenderAppend([Mode(res)], [Auto]);
  }

  lemma OffsStep(externals: seq<string>)
    requires externals != []
    ensures Render(Offs(externals)) == ["--output", externals[0], "--off"] + Render(Offs(externals[1..]))
  {
    RenderAppend([Output(externals[0]), Off], Offs(externals[1..]));
    RenderAppend([Output(externals[0])], [Off]);
  }

  lemma AnyKnownSnoc(externals: seq<string>, i: nat, caps: Capabilities)
    requires i < |externals|
    ensures AnyKnown(externals[..i + 1], caps) <==> AnyKnown(externals[..i], caps) || caps(externals[i]).Some?
  {
    var a, b := externals[..i + 1], externals[..i];
    assert forall j :: 0 <= j < i ==> a[j] == b[j];
    assert a[i] == externals[i];
  }

  lemma CommandLineOf(monitors: seq<string>, caps: Capabilities, laptop: string)
    requires LaptopMonitor(monitors) == Some(laptop)
    ensures CommandLine(monitors, caps) ==
            Success(["xrandr"] + Render(Setup(Externals(monitors), laptop, caps)) + Render(Offs(Externals(monitors))))
  {
    var externals := Externals(monitors);
    var setup, offs := Setup(externals, laptop, caps), Offs(externals);
    assert Plan(monitors, caps) == Success(setup + offs);
    assert CommandLine(monitors, caps) == Success(["xrandr"] + Render(setup + offs));
    RenderAppend(setup, offs);
    assert ["xrandr"] + (Render(setup) + Render(offs)) == ["xrandr"] + Render(setup) + Render(offs);
  }

  lemma DockingLoopStep(extended: seq<string>, externals: seq<string>, i: nat, laptop: string, caps: Capabilities, primarySet: bool)
    requires i < |externals|
    ensures extended + Render(Docking(externals[i..], laptop, caps, primarySet))
            == (extended + Render(PlaceExternal(externals[i], laptop, caps, primarySet)))
               + Render(Docking(externals[i + 1..], laptop, caps, primarySet || caps(externals[i]).Some?))
  {
    assert externals[i..][0] == externals[i] && externals[i..][1..] == externals[i + 1..];
    DockingStep(externals[i..], laptop, caps, primarySet);
  }

  /** The docked loop (lines 77-85): for each external output with known
      capabilities, place it above the laptop; the first one placed is primary. */
  method PlaceExternals(commands: seq<string>, externals: seq<string>, laptop: string, caps: Capabilities)
    returns (extended: seq<string>)
    ensures extended == commands + Render(Docking(externals, laptop, caps, false))
  {
    extended := commands;
    var primarySet := false;
    for i := 0 to |externals|
      invariant primarySet <==> AnyKnown(externals[..i], caps)
      invariant extended + Render(Docking(externals[i..], laptop, caps, primarySet))
                == commands + Render(Docking(externals, laptop, caps, false))
    {
      var monitor := externals[i];
      DockingLoopStep(extended, externals, i, laptop, caps, primarySet);
      PlaceExternalTokens(monitor, laptop, caps, primarySet);
      AnyKnownSnoc(externals, i, caps);
      ghost var added := Render(PlaceExternal(monitor, laptop, caps, primarySet));
      ghost var before := extended;
      ghost var wasSet := primarySet;
      var resInfo := caps(monitor);
      if resInfo.Some? {
        extended := extended + ["--output", monitor, "--mode", resInfo.value, "--auto", "--above", laptop];
        if !primarySet {
          extended := extended + ["--primary"];
          primarySet := true;
        }
      }
      assert extended == before + added;
      assert primarySet == (wasSet || caps(monitor).Some?);
    }
    assert externals[|externals|..] == [];
    assert Render(Docking([], laptop, caps, primarySet)) == [];
  }

  /** The closing loop (lines 100-101): `--output m --off` for every external output. */
  method SwitchOff(commands: seq<string>, externals: seq<string>) returns (extended: seq<string>)
    ensures extended == commands + Render(Offs(externals))
  {
    extended := commands;
    for i := 0 to |externals|
      invariant extended + Render(Offs(externals[i..])) == commands + Render(Offs(externals))
    {
      OffsStep(externals[i..]);
      assert externals[i..][1..] == externals[i + 1..];
      extended := extended + ["--output", externals[i], "--off"];
    }
    assert externals[|externals|..] == [];
  }

  /** `manage_monitors(monitors, state)`: the xrandr argument list, built the way
      the source builds it. The `state` argument plays no part. */
  method ManageMonitors(monitors: seq<string>, state: map<string, bool>, caps: Capabilities)
    returns (result: Result<seq<string>, Failure>)
    ensures result == CommandLine(monitors, caps)
  {
    var commands := ["xrandr"];
    var externals := Filter(monitors, IsExternal);
    var panels := Filter(monitors, IsPanel);
    if panels == [] {
      return Failure(NoLaptopMonitor);
    }
    var laptop := panels[0];

    LaptopTokens(laptop, caps);
    if externals != [] {
      // Docked mode: every external output above the laptop panel.
      commands := PlaceExternals(commands, externals, laptop, caps);
      var resInfo := caps(laptop);
      if resInfo.Some? {
        commands := commands + ["--output", laptop, "--mode", resInfo.value, "--auto"];
      }
      RenderAppend(Docking(externals, laptop, caps, false), LaptopDocked(laptop, caps));
    } else {
      // Mobile mode: only the laptop panel.
      var resInfo := caps(laptop);
      if resInfo.Some? {
        commands := commands + ["--output", laptop, "--mode", resInfo.value, "--auto"];
      } else {
        commands := commands + ["--output", laptop, "--auto"];
      }
    }
    assert commands == ["xrandr"] + Render(Setup(externals, laptop, caps));

    commands := SwitchOff(commands, externals);
    assert Externals(monitors) == externals;
    CommandLineOf(monitors, caps, laptop);
    return Success(commands);
  }

  // ---------------------------------------------------------------------------
  // What the command line promises
  // ---------------------------------------------------------------------------

  /** The call fails exactly when no output name contains "eDP"; otherwise the
      argument list is `xrandr` followed by the tokens of the plan, and the
      tokens read back as exactly that plan. */
  lemma CommandLineShape(monitors: seq<string>, caps: Capabilities)
    ensures CommandLine(monitors, caps).Failure? <==> forall k :: 0 <= k < |monitors| ==> !IsPanel(monitors[k])
    ensures CommandLine(monitors, caps).Success? ==>
              CommandLine(monitors, caps).value[0] == "xrandr"
              && ReadBack(CommandLine(monitors, caps).value[1..]) == Some(Plan(monitors, caps).value)
  {
    LaptopMonitorSpec(monitors);
    if Plan(monitors, caps).Success? {
      var plan := Plan(monitors, caps).value;
      ReadBackRender(plan);
      assert (["xrandr"] + Render(plan))[1..] == Render(plan);
    }
  }

  /** With no external outputs the call is `xrandr` and the mobile set-up alone. */
  lemma CommandLineMobile(monitors: seq<string>, caps: Capabilities, laptop: string)
    requires LaptopMonitor(monitors) == Some(laptop) && Externals(monitors) == []
    ensures CommandLine(monitors, caps) == Success(["xrandr"] + Render(LaptopMobile(laptop, caps)))
  {
    CommandLineOf(monitors, caps, laptop);
    assert Render(Offs([])) == [];
    assert Setup([], laptop, caps) == LaptopMobile(laptop, caps);
    assert ["xrandr"] + Render(LaptopMobile(laptop, caps)) + [] == ["xrandr"] + Render(LaptopMobile(laptop, caps));
  }

  /** Mobile mode: when every output is a panel, the laptop is the first output
      and the call sets it up alone, with its mode when it is known and with
      `--auto` alone when not. */
  lemma MobileMode(monitors: seq<string>, caps: Capabilities)
    requires monitors != []
    requires forall k :: 0 <= k < |monitors| ==> IsPanel(monitors[k])
    ensures caps(monitors[0]).Some? ==>
              CommandLine(monitors, caps)
              == Success(["xrandr", "--output", monitors[0], "--mode", caps(monitors[0]).value, "--auto"])
    ensures caps(monitors[0]).None? ==>
              CommandLine(monitors, caps) == Success(["xrandr", "--output", monitors[0], "--auto"])
  {
    var laptop := monitors[0];
    LaptopIsFirstPanel(monitors, 0);
    FilterNone(monitors, IsExternal);
    CommandLineMobile(monitors, caps, laptop);
    LaptopTokens(laptop, caps);
    if caps(laptop).Some? {
      assert ["xrandr"] + ["--output", laptop, "--mode", caps(laptop).value, "--auto"]
             == ["xrandr", "--output", laptop, "--mode", caps(laptop).value, "--auto"];
    } else {
      assert ["xrandr"] + ["--output", laptop, "--auto"] == ["xrandr", "--output", laptop, "--auto"];
    }
  }

  lemma AnyKnownCons(externals: seq<string>, caps: Capabilities)
    requires externals != []
    ensures AnyKnown(externals, caps) <==> caps(externals[0]).Some? || AnyKnown(externals[1..], caps)
  {
    assert forall i :: 0 < i < |externals| ==> externals[1..][i - 1] == externals[i];
  }

  /** In the docked loop `--primary` is given at most once: once when some
      external output has known capabilities and none was given before. */
  lemma {:induction false} PrimaryCount(externals: seq<string>, laptop: string, caps: Capabilities, primarySet: bool)
    ensures multiset(Docking(externals, laptop, caps, primarySet))[Primary]
            == if !primarySet && AnyKnown(externals, caps) then 1 else 0
  {
    if externals != [] {
      var next := primarySet || caps(externals[0]).Some?;
      PrimaryCount(externals[1..], laptop, caps, next);
      AnyKnownCons(externals, caps);
      var head := PlaceExternal(externals[0], laptop, caps, primarySet);
      assert multiset(head)[Primary] == if !primarySet && caps(externals[0]).Some? then 1 else 0;
    }
  }

  /** `--primary` directly follows the placement of the first external output
      whose capabilities are known, and that placement opens the docked part. */
  lemma {:induction false} PrimaryFollowsFirstPlaced(externals: seq<string>, laptop: string, caps: Capabilities, j: nat)
    requires j < |externals| && caps(externals[j]).Some?
    requires forall i :: 0 <= i < j ==> caps(externals[i]).None?
    ensures Docking(externals, laptop, caps, false)
            == Placement(externals[j], caps(externals[j]).value, laptop) + [Primary]
               + Docking(externals[j + 1..], laptop, caps, true)
  {
    if j > 0 {
      assert forall i :: 0 <= i < j - 1 ==> externals[1..][i] == externals[i + 1];
      PrimaryFollowsFirstPlaced(externals[1..], laptop, caps, j - 1);
      assert externals[1..][j - 1] == externals[j];
      assert externals[1..][j..] == externals[j + 1..];
    }
  }

  /** In docked mode the whole call carries `--primary` exactly once when some
      external output has known capabilities, and not at all otherwise. */
  lemma DockedPrimary(monitors: seq<string>, caps: Capabilities)
    requires LaptopMonitor(monitors).Some? && Externals(monitors) != []
    ensures multiset(Plan(monitors, caps).value)[Primary]
            == if AnyKnown(Externals(monitors), caps) then 1 else 0
  {
    var externals, laptop := Externals(monitors), LaptopMonitor(monitors).value;
    var docking := Docking(externals, laptop, caps, false);
    assert Plan(monitors, caps).value == docking + LaptopDocked(laptop, caps) + Offs(externals);
    PrimaryCount(externals, laptop, caps, false);
    NoPrimaryAfterDocking(externals, laptop, caps);
  }

  /** What follows the docked loop never carries `--primary`. */
  lemma NoPrimaryAfterDocking(externals: seq<string>, laptop: string, caps: Capabilities)
    ensures multiset(LaptopDocked(laptop, caps) + Offs(externals))[Primary] == 0
  {
    OffsOptions(externals);
    assert Primary !in LaptopDocked(laptop, caps) + Offs(externals);
  }

  /** Every placement of the known external outputs, in external order. */
  function KnownPlacements(externals: seq<string>, laptop: string, caps: Capabilities): seq<XOption> {
    if externals == [] then []
    else
      (match caps(externals[0])
       case None => []
       case Some(res) => Placement(externals[0], res, laptop))
      + KnownPlacements(externals[1..], laptop, caps)
  }

  predicate NotPrimary(o: XOption) {
    !o.Primary?
  }

  /** One pass of the docked loop, `--primary` left aside. */
  lemma PlacedApartFromPrimary(monitor: string, laptop: string, caps: Capabilities, primarySet: bool)
    ensures Filter(PlaceExternal(monitor, laptop, caps, primarySet), NotPrimary)
            == KnownPlacements([monitor], laptop, caps)
  {
    assert KnownPlacements([monitor], laptop, caps)
           == KnownPlacements([monitor], laptop, caps) + KnownPlacements([], laptop, caps);
    if caps(monitor).Some? {
      var placed := Placement(monitor, caps(monitor).value, laptop);
      var tail: seq<XOption> := if primarySet then [] else [Primary];
      FilterAppend(placed, tail, NotPrimary);
      FilterAll(placed, NotPrimary);
      assert Filter(tail, NotPrimary) == [];
    }
  }

  /** Apart from `--primary`, the docked loop emits exactly the placements of the
      external outputs whose capabilities are known, in order; the others get none. */
  lemma {:induction false} DockingPlacements(externals: seq<string>, laptop: string, caps: Capabilities, primarySet: bool)
    ensures Filter(Docking(externals, laptop, caps, primarySet), NotPrimary) == KnownPlacements(externals, laptop, caps)
  {
    if externals != [] {
      var next := primarySet || caps(externals[0]).Some?;
      var head := PlaceExternal(externals[0], laptop, caps, primarySet);
      DockingPlacements(externals[1..], laptop, caps, next);
      FilterAppend(head, Docking(externals[1..], laptop, caps, next), NotPrimary);
      PlacedApartFromPrimary(externals[0], laptop, caps, primarySet);
      assert [externals[0]][1..] == [];
    }
  }

  /** The outputs the docked loop names are external outputs. */
  lemma {:induction false} DockingOutputs(externals: seq<string>, laptop: string, caps: Capabilities, primarySet: bool)
    ensures forall o :: o in Docking(externals, laptop, caps, primarySet) && o.Output? ==> o.name in externals
  {
    if externals != [] {
      var next := primarySet || caps(externals[0]).Some?;
      DockingOutputs(externals[1..], laptop, caps, next);
    }
  }

  /** The closing part only switches external outputs off. */
  lemma {:induction false} OffsOptions(externals: seq<string>)
    ensures forall o :: o in Offs(externals) ==> o == Off || (o.Output? && o.name in externals)
  {
    if externals != [] {
      OffsOptions(externals[1..]);
    }
  }

  /** In docked mode the laptop is named only when its capabilities are known:
      unlike mobile mode there is no bare `--auto` for it. */
  lemma DockedLaptopNeedsMode(monitors: seq<string>, caps: Capabilities)
    requires LaptopMonitor(monitors).Some? && Externals(monitors) != []
    requires caps(LaptopMonitor(monitors).value).None?
    ensures Output(LaptopMonitor(monitors).value) !in Plan(monitors, caps).value
  {
    var externals, laptop := Externals(monitors), LaptopMonitor(monitors).value;
    LaptopMonitorSpec(monitors);
    ExternalsMembers(monitors);
    assert laptop !in externals;
    DockingOutputs(externals, laptop, caps, false);
    OffsOptions(externals);
    assert Plan(monitors, caps).value == Docking(externals, laptop, caps, false) + [] + Offs(externals);
  }

  /** `--output m --off` for every external output, in order, three tokens each. */
  lemma {:induction false} OffTokens(externals: seq<string>)
    ensures |Render(Offs(externals))| == 3 * |externals|
    ensures forall k :: 0 <= k < |externals| ==>
              Render(Offs(externals))[3 * k..3 * k + 3] == ["--output", externals[k], "--off"]
  {
    if externals != [] {
      OffsStep(externals);
      OffTokens(externals[1..]);
      var all, rest := Render(Offs(externals)), Render(Offs(externals[1..]));
      forall k | 0 < k < |externals|
        ensures all[3 * k..3 * k + 3] == ["--output", externals[k], "--off"]
      {
        assert all[3 * k..3 * k + 3] == rest[3 * (k - 1)..3 * (k - 1) + 3];
        assert externals[1..][k - 1] == externals[k];
      }
    }
  }

  /** `tokens` ends with `--output m --off` for every one of `externals`, in order. */
  predicate EndsWithOffs(tokens: seq<string>, externals: seq<string>) {
    |tokens| >= 3 * |externals|
    && forall k :: 0 <= k < |externals| ==>
         tokens[|tokens| - 3 * |externals| + 3 * k..|tokens| - 3 * |externals| + 3 * k + 3]
         == ["--output", externals[k], "--off"]
  }

  /** In both modes the argument list ends by switching every external output
      off, in order, after `xrandr` and the set-up options. */
  lemma CommandLineEndsWithOffs(monitors: seq<string>, caps: Capabilities)
    requires CommandLine(monitors, caps).Success?
    ensures |CommandLine(monitors, caps).value| > 3 * |Externals(monitors)|
    ensures EndsWithOffs(CommandLine(monitors, caps).value, Externals(monitors))
  {
    var externals, laptop := Externals(monitors), LaptopMonitor(monitors).value;
    var front, offs := ["xrandr"] + Render(Setup(externals, laptop, caps)), Render(Offs(externals));
    CommandLineOf(monitors, caps, laptop);
    assert CommandLine(monitors, caps).value == front + offs;
    OffTokens(externals);
    BlocksAtEnd(front, offs, externals);
  }

  lemma BlocksAtEnd(front: seq<string>, offs: seq<string>, externals: seq<string>)
    requires |offs| == 3 * |externals|
    requires forall k :: 0 <= k < |externals| ==> offs[3 * k..3 * k + 3] == ["--output", externals[k], "--off"]
    ensures EndsWithOffs(front + offs, externals)
  {
    var tokens := front + offs;
    forall k | 0 <= k < |externals|
      ensures tokens[|front| + 3 * k..|front| + 3 * k + 3] == ["--output", externals[k], "--off"]
    {
      assert tokens[|front| + 3 * k..|front| + 3 * k + 3] == offs[3 * k..3 * k + 3];
    }
  }
}
