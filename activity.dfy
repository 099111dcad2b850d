/** `MainActivity` with the Android calls around its logic replaced by inputs: the
    package manager becomes a `Device` value, the Wi-Fi address and the outcome of
    the health probe are passed to the step that uses them, and every visible effect
    is appended to `trace`. */
module Activity {
  import opened Wrappers
  import opened KotlinInt
  import opened Health
  import opened Effects
  import opened AllowList
  import opened Ipv4
  import opened Title
  import opened Launching
  import opened Scheduler

  const MagiskPackage: string := "com.topjohnwu.magisk"
  const TermuxPackage: string := "com.termux"
  const TermuxMissingMessage: string := "Termux app not found. Please install Termux."

  /** What the package manager answers:
      `installed`, the packages `getApplicationInfo` finds;
      `launchable`, those `getLaunchIntentForPackage` returns an intent for;
      `termuxUid`, the uid it reports for `com.termux`;
      `launcherQuery`, the result of `queryIntentActivities` for launcher activities. */
  datatype Device = Device(
    installed: set<string>,
    launchable: set<string>,
    termuxUid: Int32,
    launcherQuery: seq<ResolveInfo>)

  /** The grid after `onCreate`: loaded only when Magisk is installed. */
  function InitialApps(device: Device): seq<App>
  {
    if MagiskPackage in device.installed then AllowedApps(device.launcherQuery) else []
  }

  /** The title `onCreate` sets: with the termux uid when termux is installed,
      otherwise a toast and the uid 0. */
  function InitialTitle(device: Device, ip: Int32): seq<Effect>
  {
    if TermuxPackage in device.installed then
      [SetTitle(UpdatedTitle(Some(device.termuxUid), device.termuxUid, ip))]
    else
      [Toast(TermuxMissingMessage), SetTitle(UpdatedTitle(Some(0), device.termuxUid, ip))]
  }

  /** All effects of `onCreate`: the title, then `startApps`. */
  function CreateEffects(device: Device, ip: Int32): seq<Effect>
  {
    InitialTitle(device, ip) + RunSequence(StartupSteps, device.launchable)
  }

  /** The effects of running a callback the looper took off the queue. */
  function JobEffects(job: Job, device: Device, ip: Int32, probe: ProbeOutcome): seq<Effect>
  {
    match job
    case UpdateIp => [SetTitle(UpdatedTitle(None, device.termuxUid, ip))]
    case CheckDockerApi => [SetDot(Classify(probe))]
    case Foreign(_) => []
  }

  class MainActivity {
    const device: Device
    const handler: Handler
    /** `appList`: the apps shown in the grid. */
    var appList: seq<App>
    /** The visible effects so far, oldest first. */
    var trace: seq<Effect>

    /** `onCreate`, with `ip` the address the Wi-Fi service reports at that moment. */
    constructor OnCreate(device: Device, ip: Int32)
      ensures this.device == device && fresh(handler)
      ensures appList == InitialApps(device)
      ensures trace == CreateEffects(device, ip)
      ensures handler.queue == [] && handler.now == 0
    {
      this.device := device;
      handler := new Handler();
      appList := [];
      trace := [];
      new;
      if MagiskPackage in device.installed {
        LoadApps();
      }
      assert appList == InitialApps(device);
      if TermuxPackage in device.installed {
        UpdateTitleWithIpAddress(Some(device.termuxUid), ip);
      } else {
        trace := trace + [Toast(TermuxMissingMessage)];
        UpdateTitleWithIpAddress(Some(0), ip);
      }
      assert trace == InitialTitle(device, ip);
      StartApps();
    }

    /** `loadApps`: walks the launcher query in order and appends each allowed entry. */
    method LoadApps()
      modifies this
      ensures appList == old(appList) + AllowedApps(device.launcherQuery)
      ensures trace == old(trace)
    {
      var query := device.launcherQuery;
      for n := 0 to |query|
        invariant appList == old(appList) + AllowedApps(query[..n])
        invariant trace == old(trace)
      {
        var info := query[n];
        if IsAllowed(info.packageName) {
          appList := appList + [AppOf(info)];
        }
        AllowedAppsAppend(query[..n], [info]);
        AllowedAppsSingle(info);
        assert query[..n + 1] == query[..n] + [info];
      }
      assert query[..|query|] == query;
    }

    /** `startApps`: X11, a 5000 ms sleep, then the camera; a toast and an early
        return at the first package without a launch intent. */
    method StartApps()
      modifies this
      ensures trace == old(trace) + RunSequence(StartupSteps, device.launchable)
      ensures appList == old(appList)
    {
      if X11Package in device.launchable {
        trace := trace + [Launch(X11Package)];
        trace := trace + [Sleep(X11SettleMs)];
      } else {
        trace := trace + [Toast(NotInstalledMessage(X11Package))];
        StartupWithoutX11(device.launchable);
        return;
      }
      if CameraPackage in device.launchable {
        trace := trace + [Launch(CameraPackage)];
        StartupBoth(device.launchable);
      } else {
        trace := trace + [Toast(NotInstalledMessage(CameraPackage))];
        StartupWithoutCamera(device.launchable);
        return;
      }
    }

    /** `updateTitleWithIpAddress(termuxUid)`. */
    method UpdateTitleWithIpAddress(termuxUid: Option<Int32>, ip: Int32)
      modifies this
      ensures trace == old(trace) + [SetTitle(UpdatedTitle(termuxUid, device.termuxUid, ip))]
      ensures appList == old(appList)
    {
      trace := trace + [SetTitle(UpdatedTitle(termuxUid, device.termuxUid, ip))];
    }

    /** `checkDockerApiConnection`, with `probe` the outcome of the request. */
    method CheckDockerApiConnection(probe: ProbeOutcome)
      modifies this
      ensures trace == old(trace) + [SetDot(Classify(probe))]
      ensures appList == old(appList)
    {
      trace := trace + [SetDot(Classify(probe))];
    }

    /** `updateIpRunnable.run`: refresh the title, then re-post in a minute. */
    method RunUpdateIp(ip: Int32)
      modifies this, handler
      ensures trace == old(trace) + [SetTitle(UpdatedTitle(None, device.termuxUid, ip))]
      ensures handler.queue == old(handler.queue) + [Pending(UpdateIp, handler.now + IpUpdateInterval)]
      ensures handler.now == old(handler.now) && appList == old(appList)
    {
      UpdateTitleWithIpAddress(None, ip);
      handler.PostDelayed(UpdateIp, IpUpdateInterval);
    }

    /** `checkDockerApiRunnable.run`: probe, then re-post in five seconds. */
    method RunCheckDockerApi(probe: ProbeOutcome)
      modifies this, handler
      ensures trace == old(trace) + [SetDot(Classify(probe))]
      ensures handler.queue == old(handler.queue) + [Pending(CheckDockerApi, handler.now + DockerCheckInterval)]
      ensures handler.now == old(handler.now) && appList == old(appList)
    {
      CheckDockerApiConnection(probe);
      handler.PostDelayed(CheckDockerApi, DockerCheckInterval);
    }

    /** `onResume`: post both runnables. */
    method OnResume()
      modifies handler
      ensures handler.queue == Resumed(old(handler.queue), handler.now)
      ensures handler.now == old(handler.now)
    {
      handler.Post(UpdateIp);
      handler.Post(CheckDockerApi);
    }

    /** `onPause`: remove every pending entry of both runnables. */
    method OnPause()
      modifies handler
      ensures handler.queue == Paused(old(handler.queue))
      ensures handler.now == old(handler.now)
    {
      handler.RemoveCallbacks(UpdateIp);
      handler.RemoveCallbacks(CheckDockerApi);
    }

    /** One turn of the main looper: the next due callback runs, with `ip` the address
        the Wi-Fi service reports and `probe` the outcome of the health request. */
    method RunNext(ip: Int32, probe: ProbeOutcome) returns (job: Job)
      requires handler.queue != []
      modifies this, handler
      ensures job == old(handler.queue)[EarliestIndex(old(handler.queue))].job
      ensures handler.queue == AfterFire(old(handler.queue), old(handler.now))
      ensures handler.now == FireTime(old(handler.queue), old(handler.now))
      ensures trace == old(trace) + JobEffects(job, device, ip, probe)
      ensures appList == old(appList)
    {
      ghost var q0, t0 := handler.queue, handler.now;
      job := handler.Fire();
      ghost var rest := handler.queue;
      assert rest == Without(q0, EarliestIndex(q0)) && handler.now == FireTime(q0, t0);
      match job
      case UpdateIp =>
        RunUpdateIp(ip);
        assert handler.queue == rest + [Pending(UpdateIp, handler.now + IpUpdateInterval)];
      case CheckDockerApi =>
        RunCheckDockerApi(probe);
        assert handler.queue == rest + [Pending(CheckDockerApi, handler.now + DockerCheckInterval)];
      case Foreign(_) =>
    }
  }

  /** Without Magisk the grid stays empty; with it, it holds exactly the allowed
      query entries. */
  lemma InitialAppsGate(device: Device)
    ensures MagiskPackage !in device.installed ==> InitialApps(device) == []
    ensures MagiskPackage in device.installed ==>
      forall a :: a in InitialApps(device) ==> IsAllowed(a.packageName)
    ensures MagiskPackage in device.installed ==>
      forall info :: info in device.launcherQuery && IsAllowed(info.packageName) ==> AppOf(info) in InitialApps(device)
  {
    AllowedAppsMembers(device.launcherQuery);
  }

  /** The first title carries the termux uid, unreduced, when termux is installed,
      and 0 when it is not (after the toast). */
  lemma InitialTitleUid(device: Device, ip: Int32)
    ensures var effects := InitialTitle(device, ip);
      var title := effects[|effects| - 1];
      && title.SetTitle?
      && ParseTitle(title.title)
         == Some(TitleParts(if TermuxPackage in device.installed then device.termuxUid else 0, FormatIp(ip)))
      && (TermuxPackage !in device.installed ==> effects[0] == Toast(TermuxMissingMessage))
  {
    SuppliedUidUnchanged(device.termuxUid, device.termuxUid, ip);
    SuppliedUidUnchanged(0, device.termuxUid, ip);
  }
}
