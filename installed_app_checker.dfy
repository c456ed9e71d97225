/** The Android side of the bridge (RNInstalledAppCheckerModule): a lookup of one
    package name, and two listings built by a loop over the platform's package list.
    The package manager is not modelled; its answers are inputs. */
module InstalledAppChecker {
  import opened Wrappers
  import opened Sequences

  /** Java's `int`, the type of `PackageInfo.versionCode`. */
  newtype int32 = x: int | -0x8000_0000 <= x < 0x8000_0000

  /** `ApplicationInfo.FLAG_SYSTEM`: bit 0 of the application flags. */
  const FLAG_SYSTEM: bv32 := 1

  /** What the module reads of one `PackageInfo` the platform returns. `appLabel` is what
      `applicationInfo.loadLabel(...).toString()` yields; a null `versionName` is `None`.
      The two timestamps are opaque values copied through. */
  datatype PackageInfo = PackageInfo(
    packageName: string,
    appLabel: string,
    versionName: Option<string>,
    versionCode: int32,
    flags: bv32,
    firstInstallTime: int,
    lastUpdateTime: int)

  /** A record of the user-app listing: timestamps, no system tag. */
  datatype UserAppRecord = UserAppRecord(
    packageName: string,
    appName: string,
    versionName: string,
    versionCode: int32,
    firstInstallTime: int,
    lastUpdateTime: int)

  /** A record of the full listing: a system tag, no timestamps. */
  datatype AnyAppRecord = AnyAppRecord(
    packageName: string,
    appName: string,
    versionName: string,
    versionCode: int32,
    isSystemApp: bool)

  /** The platform's answer to `getPackageInfo`: the package, or `NameNotFoundException`. */
  datatype Lookup = Found(info: PackageInfo) | NameNotFound

  /** The installed packages by name, as the package manager resolves them. */
  type Registry = map<string, PackageInfo>

  function GetPackageInfo(registry: Registry, packageName: string): (r: Lookup)
    ensures r.Found? <==> packageName in registry
  {
    if packageName in registry then Found(registry[packageName]) else NameNotFound
  }

  predicate IsSystemPackage(p: PackageInfo) {
    p.flags & FLAG_SYSTEM != 0
  }

  predicate IsUserPackage(p: PackageInfo) {
    p.flags & FLAG_SYSTEM == 0
  }

  /** The version name shown in both listings: the package's own, or "Unknown" when it has none. */
  function VersionNameOrUnknown(versionName: Option<string>): string {
    versionName.GetOr("Unknown")
  }

  function ToUserRecord(p: PackageInfo): (r: UserAppRecord)
    ensures r.packageName == p.packageName && r.appName == p.appLabel && r.versionCode == p.versionCode
    ensures p.versionName.Some? ==> r.versionName == p.versionName.value
    ensures p.versionName.None? ==> r.versionName == "Unknown"
    ensures r.firstInstallTime == p.firstInstallTime && r.lastUpdateTime == p.lastUpdateTime
  {
    UserAppRecord(p.packageName, p.appLabel, VersionNameOrUnknown(p.versionName), p.versionCode,
                  p.firstInstallTime, p.lastUpdateTime)
  }

  function ToAnyRecord(p: PackageInfo): (r: AnyAppRecord)
    ensures r.packageName == p.packageName && r.appName == p.appLabel && r.versionCode == p.versionCode
    ensures p.versionName.Some? ==> r.versionName == p.versionName.value
    ensures p.versionName.None? ==> r.versionName == "Unknown"
    ensures r.isSystemApp <==> p.flags & FLAG_SYSTEM != 0
  {
    AnyAppRecord(p.packageName, p.appLabel, VersionNameOrUnknown(p.versionName), p.versionCode,
                 IsSystemPackage(p))
  }

  /** The user-app listing of a package list, as a specification. */
  function UserApps(packages: seq<PackageInfo>): seq<UserAppRecord> {
    Map(Filter(packages, IsUserPackage), ToUserRecord)
  }

  /** The full listing of a package list, as a specification. */
  function AllApps(packages: seq<PackageInfo>): seq<AnyAppRecord> {
    Map(packages, ToAnyRecord)
  }

  /** `isAppInstalled`: true when the lookup returns, false when it raises
      NameNotFound; the single result is what the callback receives. */
  method IsAppInstalled(registry: Registry, packageName: string) returns (isInstalled: bool)
    ensures isInstalled <==> GetPackageInfo(registry, packageName).Found?
    ensures !isInstalled <==> GetPackageInfo(registry, packageName).NameNotFound?
    ensures isInstalled <==> packageName in registry
  {
    var lookup := GetPackageInfo(registry, packageName);
    match lookup {
      case Found(_) =>
        isInstalled := true;
      case NameNotFound =>
        isInstalled := false;
    }
  }

  lemma UserAppsSnoc(packages: seq<PackageInfo>, p: PackageInfo)
    ensures UserApps(packages + [p]) == UserApps(packages) + (if IsUserPackage(p) then [ToUserRecord(p)] else [])
  {
    FilterAppend(packages, [p], IsUserPackage);
    assert Filter([p], IsUserPackage) == if IsUserPackage(p) then [p] else [];
    MapAppend(Filter(packages, IsUserPackage), Filter([p], IsUserPackage), ToUserRecord);
  }

  /** `getInstalledApps`: one pass over the package list, pushing a user-app record
      for every package whose system bit is clear. */
  method GetInstalledApps(packages: seq<PackageInfo>) returns (installedApps: seq<UserAppRecord>)
    ensures installedApps == UserApps(packages)
  {
    installedApps := [];
    for i := 0 to |packages|
      invariant installedApps == UserApps(packages[..i])
    {
      var packageInfo := packages[i];
      assert packages[..i + 1] == packages[..i] + [packageInfo];
      UserAppsSnoc(packages[..i], packageInfo);
      if packageInfo.flags & FLAG_SYSTEM == 0 {
        var appInfo := ToUserRecord(packageInfo);
        installedApps := installedApps + [appInfo];
      }
    }
    assert packages[..|packages|] == packages;
  }

  /** `getAllInstalledApps`: one pass over the package list, pushing a tagged record for every package. */
  method GetAllInstalledApps(packages: seq<PackageInfo>) returns (installedApps: seq<AnyAppRecord>)
    ensures installedApps == AllApps(packages)
    ensures |installedApps| == |packages|
    ensures forall k :: 0 <= k < |packages| ==> installedApps[k] == ToAnyRecord(packages[k])
  {
    installedApps := [];
    for i := 0 to |packages|
      invariant installedApps == AllApps(packages[..i])
    {
      var packageInfo := packages[i];
      assert packages[..i + 1] == packages[..i] + [packageInfo];
      MapAppend(packages[..i], [packageInfo], ToAnyRecord);
      var appInfo := ToAnyRecord(packageInfo);
      installedApps := installedApps + [appInfo];
    }
    assert packages[..|packages|] == packages;
  }

  /** The user listing is exactly the non-system packages, in input order, each turned into a record. */
  lemma UserAppsIsOrderPreservingFilter(packages: seq<PackageInfo>)
    ensures IsSubsequence(Filter(packages, IsUserPackage), packages)
    ensures forall p :: multiset(Filter(packages, IsUserPackage))[p] ==
                        if IsUserPackage(p) then multiset(packages)[p] else 0
    ensures |UserApps(packages)| == |Filter(packages, IsUserPackage)|
    ensures forall k :: 0 <= k < |UserApps(packages)| ==>
              UserApps(packages)[k] == ToUserRecord(Filter(packages, IsUserPackage)[k])
  {
    FilterIsSubsequence(packages, IsUserPackage);
    forall p {
      FilterCount(packages, IsUserPackage, p);
    }
  }

  /** Every record of the user listing comes from a package of the input whose system bit is clear. */
  lemma UserAppsFromUserPackages(packages: seq<PackageInfo>, r: UserAppRecord)
    requires r in UserApps(packages)
    ensures exists p :: p in packages && p.flags & FLAG_SYSTEM == 0 && r == ToUserRecord(p)
  {
    var kept := Filter(packages, IsUserPackage);
    var k :| 0 <= k < |UserApps(packages)| && UserApps(packages)[k] == r;
    assert kept[k] in kept;
  }

  function UserRecordName(r: UserAppRecord): string { r.packageName }

  function AnyRecordName(r: AnyAppRecord): string { r.packageName }

  function PackageName(p: PackageInfo): string { p.packageName }

  /** Over one package list, the user listing's package names are a subsequence,
      and so a subset, of the full listing's. */
  lemma UserNamesSubsequenceOfAllNames(packages: seq<PackageInfo>)
    ensures IsSubsequence(Map(UserApps(packages), UserRecordName), Map(AllApps(packages), AnyRecordName))
    ensures forall n :: n in Map(UserApps(packages), UserRecordName) ==> n in Map(AllApps(packages), AnyRecordName)
  {
    var kept := Filter(packages, IsUserPackage);
    MapMap(kept, ToUserRecord, UserRecordName, PackageName);
    MapMap(packages, ToAnyRecord, AnyRecordName, PackageName);
    FilterIsSubsequence(packages, IsUserPackage);
    MapSubsequence(kept, packages, PackageName);
    SubsequenceElements(Map(kept, PackageName), Map(packages, PackageName));
  }

  /** The fields both listings carry. */
  datatype AppSummary = AppSummary(packageName: string, appName: string, versionName: string, versionCode: int32)

  function UserSummary(r: UserAppRecord): AppSummary {
    AppSummary(r.packageName, r.appName, r.versionName, r.versionCode)
  }

  function AnySummary(r: AnyAppRecord): AppSummary {
    AppSummary(r.packageName, r.appName, r.versionName, r.versionCode)
  }

  predicate IsUserRecord(r: AnyAppRecord) { !r.isSystemApp }

  function PackageSummary(p: PackageInfo): AppSummary {
    AppSummary(p.packageName, p.appLabel, VersionNameOrUnknown(p.versionName), p.versionCode)
  }

  /** The two listings agree: keeping the records of the full listing not tagged as system
      apps gives, in the same order, the records of the user listing on their shared fields. */
  lemma UserAppsAreUntaggedAllApps(packages: seq<PackageInfo>)
    ensures Map(UserApps(packages), UserSummary) == Map(Filter(AllApps(packages), IsUserRecord), AnySummary)
  {
    var kept := Filter(packages, IsUserPackage);
    FilterMap(packages, ToAnyRecord, IsUserRecord, IsUserPackage);
    MapMap(kept, ToAnyRecord, AnySummary, PackageSummary);
    MapMap(kept, ToUserRecord, UserSummary, PackageSummary);
  }
}
