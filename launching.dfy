/** The effects of `startApps`: start the X11 server, wait for it to settle, then
    start the camera app, giving up with a toast at the first package that has no
    launch intent. The steps are written as a list so that the stop-at-first-missing
    rule can be stated for any sequence. */
module Launching {
  import opened Effects

  const X11Package: string := "com.termux.x11"
  const CameraPackage: string := "com.example.quinecamera"
  const X11SettleMs: nat := 5000

  /** A package to start and how long to block afterwards (0: no sleep). */
  datatype LaunchStep = LaunchStep(target: string, settleMs: nat)

  /** The steps `startApps` performs: X11 and a 5000 ms sleep, then the camera. */
  const StartupSteps: seq<LaunchStep> := [LaunchStep(X11Package, X11SettleMs), LaunchStep(CameraPackage, 0)]

  function NotInstalledMessage(packageName: string): string {
    "App not installed: " + packageName
  }

  /** The effects of one step whose target resolves. */
  function Started(step: LaunchStep): seq<Effect> {
    [Launch(step.target)] + (if step.settleMs > 0 then [Sleep(step.settleMs)] else [])
  }

  /** The effects of running `steps` when exactly the packages in `launchable`
      have a launch intent. */
  function RunSequence(steps: seq<LaunchStep>, launchable: set<string>): seq<Effect>
  {
    if steps == [] then []
    else if steps[0].target in launchable then Started(steps[0]) + RunSequence(steps[1..], launchable)
    else [Toast(NotInstalledMessage(steps[0].target))]
  }

  /** Index of the first step whose target does not resolve, or `|steps|`. */
  function FirstMissing(steps: seq<LaunchStep>, launchable: set<string>): (k: nat)
    ensures k <= |steps|
    ensures forall j :: 0 <= j < k ==> steps[j].target in launchable
    ensures k < |steps| ==> steps[k].target !in launchable
  {
    if steps == [] || steps[0].target !in launchable then 0
    else 1 + FirstMissing(steps[1..], launchable)
  }

  /** The effects of steps that all resolve, in order. */
  function StartedAll(steps: seq<LaunchStep>): seq<Effect> {
    if steps == [] then [] else Started(steps[0]) + StartedAll(steps[1..])
  }

  /** The sequence starts every step before the first missing target, in order, and
      then stops with one toast naming that target: later steps are never attempted. */
  lemma {:induction false} RunSequenceStopsAtFirstMissing(steps: seq<LaunchStep>, launchable: set<string>)
    ensures var k := FirstMissing(steps, launchable);
      RunSequence(steps, launchable)
        == StartedAll(steps[..k]) + (if k < |steps| then [Toast(NotInstalledMessage(steps[k].target))] else [])
  {
    if steps != [] && steps[0].target in launchable {
      RunSequenceStopsAtFirstMissing(steps[1..], launchable);
      var k := FirstMissing(steps, launchable);
      assert steps[..k][1..] == steps[1..][..k - 1];
    }
  }

  /** Only a target of a step before the first missing one is ever launched. */
  lemma {:induction false} LaunchedOnlyBeforeMissing(steps: seq<LaunchStep>, launchable: set<string>, p: string)
    requires Launch(p) in RunSequence(steps, launchable)
    ensures exists j :: 0 <= j < FirstMissing(steps, launchable) && steps[j].target == p
  {
    if steps[0].target != p {
      assert Launch(p) in RunSequence(steps[1..], launchable);
      LaunchedOnlyBeforeMissing(steps[1..], launchable, p);
      var j :| 0 <= j < FirstMissing(steps[1..], launchable) && steps[1..][j].target == p;
      assert steps[j + 1].target == p;
    }
  }

  /** Without the X11 server the only effect is its toast; the camera is never tried. */
  lemma StartupWithoutX11(launchable: set<string>)
    requires X11Package !in launchable
    ensures RunSequence(StartupSteps, launchable) == [Toast("App not installed: com.termux.x11")]
  {
    assert NotInstalledMessage(X11Package) == "App not installed: com.termux.x11";
  }

  /** A missing camera only adds its toast after the X11 launch and sleep. */
  lemma StartupWithoutCamera(launchable: set<string>)
    requires X11Package in launchable && CameraPackage !in launchable
    ensures RunSequence(StartupSteps, launchable)
         == [Launch(X11Package), Sleep(5000), Toast("App not installed: com.example.quinecamera")]
  {
    assert StartupSteps[1..] == [LaunchStep(CameraPackage, 0)];
    assert NotInstalledMessage(CameraPackage) == "App not installed: com.example.quinecamera";
  }

  /** With both installed: X11, the 5000 ms settle delay, then the camera. */
  lemma StartupBoth(launchable: set<string>)
    requires X11Package in launchable && CameraPackage in launchable
    ensures RunSequence(StartupSteps, launchable) == [Launch(X11Package), Sleep(5000), Launch(CameraPackage)]
  {
    var rest := StartupSteps[1..];
    assert rest == [LaunchStep(CameraPackage, 0)] && rest[1..] == [];
    assert RunSequence(rest, launchable) == [Launch(CameraPackage)];
  }
}
