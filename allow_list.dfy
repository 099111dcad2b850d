/** `isAllowed` and the filter `loadApps` applies to the launcher query: the home
    screen shows only the seven fixed packages, matched by exact string equality. */
module AllowList {

  /** The package names listed in `isAllowed`, in the order they are written. */
  const AllowedPackages: seq<string> := [
    "com.termux",
    "com.termux.x11",
    "com.topjohnwu.magisk",
    "com.android.settings",
    "net.christianbeier.droidvnc_ng",
    "com.tailscale.ipn",
    "com.example.quinecamera"
  ]

  /** Kotlin's `Array.contains`: a scan for an element equal to `x`. */
  function Contains(a: seq<string>, x: string): (r: bool)
    ensures r <==> x in a
  {
    a != [] && (a[0] == x || Contains(a[1..], x))
  }

  /** `isAllowed(packageName)`: membership in the fixed list, case-sensitive. */
  function IsAllowed(packageName: string): (r: bool)
    ensures r <==> || packageName == "com.termux"
                   || packageName == "com.termux.x11"
                   || packageName == "com.topjohnwu.magisk"
                   || packageName == "com.android.settings"
                   || packageName == "net.christianbeier.droidvnc_ng"
                   || packageName == "com.tailscale.ipn"
                   || packageName == "com.example.quinecamera"
  {
    Contains(AllowedPackages, packageName)
  }

  predicate IsUpper(c: char) { 'A' <= c <= 'Z' }

  /** No allowed name has an upper-case letter, so any name that has one, such as
      a case variant of an allowed name, is refused: the match is case-sensitive. */
  lemma UpperCaseRefused(packageName: string, i: nat)
    requires i < |packageName| && IsUpper(packageName[i])
    ensures !IsAllowed(packageName)
  {
    assert packageName != "com.termux";
    assert packageName != "com.termux.x11";
    assert packageName != "com.topjohnwu.magisk";
    assert packageName != "com.android.settings";
    assert packageName != "net.christianbeier.droidvnc_ng";
    assert packageName != "com.tailscale.ipn";
    assert packageName != "com.example.quinecamera";
  }

  /** One entry of the launcher query: the name `loadLabel` gives and
      `activityInfo.packageName`. The icon is not modelled. */
  datatype ResolveInfo = ResolveInfo(name: string, packageName: string)

  /** A tile of the home screen grid, built from a query entry. */
  datatype App = App(name: string, packageName: string)

  function AppOf(info: ResolveInfo): App {
    App(info.name, info.packageName)
  }

  /** The apps `loadApps` appends for a query result, in query order. */
  function AllowedApps(query: seq<ResolveInfo>): seq<App>
  {
    if query == [] then []
    else (if IsAllowed(query[0].packageName) then [AppOf(query[0])] else []) + AllowedApps(query[1..])
  }

  /** Filtering a concatenation filters each part and keeps them in order, so the
      relative order of the query is preserved. */
  lemma {:induction false} AllowedAppsAppend(a: seq<ResolveInfo>, b: seq<ResolveInfo>)
    ensures AllowedApps(a + b) == AllowedApps(a) + AllowedApps(b)
  {
    if a != [] {
      assert (a + b)[1..] == a[1..] + b;
      AllowedAppsAppend(a[1..], b);
    } else {
      assert a + b == b;
    }
  }

  /** A single query entry contributes its own app exactly when its package is allowed. */
  lemma AllowedAppsSingle(info: ResolveInfo)
    ensures AllowedApps([info]) == if IsAllowed(info.packageName) then [AppOf(info)] else []
  {
    assert [info][1..] == [];
  }

  /** Every app kept carries an allowed package name, and every allowed entry of
      the query is kept (with its own label and package name). */
  lemma {:induction false} AllowedAppsMembers(query: seq<ResolveInfo>)
    ensures forall a :: a in AllowedApps(query) ==> IsAllowed(a.packageName)
    ensures forall info :: info in query && IsAllowed(info.packageName) ==> AppOf(info) in AllowedApps(query)
    ensures |AllowedApps(query)| <= |query|
  {
    if query != [] {
      AllowedAppsMembers(query[1..]);
      forall info | info in query && IsAllowed(info.packageName)
        ensures AppOf(info) in AllowedApps(query)
      {
        if info != query[0] {
          assert info in query[1..];
        }
      }
    }
  }
}
