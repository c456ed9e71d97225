/** The demo screen (InstalledAppsTester): a client-side filter over the two
    listings, and the screen's state with one transition per handler. A handler
    returns the native call it issues, if any; the call's callback is a separate
    transition, so the state between the two (a list still loading) is visible. */
module ExampleUsage {
  import opened Wrappers
  import opened Sequences
  import opened JsStrings
  import InstalledAppChecker

  /** An element of a listing as the screen holds it: the two properties the filter
      reads, each possibly absent. Any other non-nullish value in the array reads as both absent. */
  datatype AppItem = AppItem(appName: Option<string>, packageName: Option<string>)

  /** A JavaScript value handed to a callback. */
  datatype JsValue =
    | Undefined
    | Null
    | Bool(b: bool)
    | Number(n: int)
    | NaN
    | Str(s: string)
    | Array(items: seq<AppItem>)
    | Object

  /** JavaScript's `!!v`: false exactly for the falsy values undefined, null,
      false, 0, NaN and the empty string. */
  function Truthy(v: JsValue): (r: bool)
    ensures !r <==> v in {Undefined, Null, Bool(false), Number(0), NaN, Str("")}
  {
    match v
    case Undefined => false
    case Null => false
    case Bool(b) => b
    case Number(n) => n != 0
    case NaN => false
    case Str(s) => s != ""
    case Array(_) => true
    case Object => true
  }

  /** `Array.isArray(apps) ? apps : []`. */
  function ArrayOrEmpty(v: JsValue): (r: seq<AppItem>)
    ensures v.Array? ==> r == v.items
    ensures !v.Array? ==> r == []
  {
    if v.Array? then v.items else []
  }

  /** The filter's test on one element: its lower-cased app name or lower-cased
      package name, when present, contains the (already lower-cased) query `q`. */
  predicate Matches(a: AppItem, q: string)
    ensures Matches(a, q) ==> a.appName.Some? || a.packageName.Some?
    ensures Matches(a, q) <==>
              (a.appName.Some? && exists i :: OccursAt(ToLowerCase(a.appName.value), q, i))
              || (a.packageName.Some? && exists i :: OccursAt(ToLowerCase(a.packageName.value), q, i))
  {
    IncludesAt(ToLowerCase(a.appName.GetOr("")), q);
    IncludesAt(ToLowerCase(a.packageName.GetOr("")), q);
    (a.appName.Some? && Includes(ToLowerCase(a.appName.value), q))
    || (a.packageName.Some? && Includes(ToLowerCase(a.packageName.value), q))
  }

  function MatchesQuery(q: string): AppItem -> bool {
    a => Matches(a, q)
  }

  /** `filteredUser` and `filteredAll`: the list unchanged when the filter text is
      blank, otherwise the elements matching the lower-cased, untrimmed filter text. */
  function Filtered(apps: seq<AppItem>, filter: string): (r: seq<AppItem>)
    ensures IsBlank(filter) ==> r == apps
    ensures !IsBlank(filter) ==> forall a :: a in r <==> a in apps && Matches(a, ToLowerCase(filter))
  {
    if IsBlank(filter) then apps else Filter(apps, MatchesQuery(ToLowerCase(filter)))
  }

  /** A blank filter shows the list as it is; any other filter shows, in order, every
      occurrence of a matching element and nothing else. */
  lemma FilteredSpec(apps: seq<AppItem>, filter: string)
    ensures IsBlank(filter) ==> Filtered(apps, filter) == apps
    ensures !IsBlank(filter) ==> IsSubsequence(Filtered(apps, filter), apps)
    ensures !IsBlank(filter) ==>
              forall a :: multiset(Filtered(apps, filter))[a] ==
                if Matches(a, ToLowerCase(filter)) then multiset(apps)[a] else 0
  {
    if !IsBlank(filter) {
      var p := MatchesQuery(ToLowerCase(filter));
      FilterIsSubsequence(apps, p);
      forall a {
        FilterCount(apps, p, a);
      }
    }
  }

  /** Filtering an already filtered list with the same text changes nothing. */
  lemma FilteredIdempotent(apps: seq<AppItem>, filter: string)
    ensures Filtered(Filtered(apps, filter), filter) == Filtered(apps, filter)
  {
    if !IsBlank(filter) {
      FilterIdempotent(apps, MatchesQuery(ToLowerCase(filter)));
    }
  }

  /** An element with neither an app name nor a package name is hidden by every non-blank filter. */
  lemma NamelessNeverMatches(apps: seq<AppItem>, filter: string)
    requires !IsBlank(filter)
    ensures AppItem(None, None) !in Filtered(apps, filter)
  {
  }

  /** The filter ignores the case of the filter text: two texts with the same
      lower-case form show the same elements. */
  lemma FilteredIgnoresFilterCase(apps: seq<AppItem>, filter: string, other: string)
    requires ToLowerCase(filter) == ToLowerCase(other)
    ensures Filtered(apps, filter) == Filtered(apps, other)
  {
    ToLowerCaseKeepsBlank(filter);
    ToLowerCaseKeepsBlank(other);
  }

  /** The filter ignores the case of the names: an element matches exactly when
      the same element with lower-cased names does. */
  lemma MatchesIgnoresNameCase(a: AppItem, q: string)
    ensures Matches(a, q) <==> Matches(LowerNames(a), q)
  {
    if a.appName.Some? {
      ToLowerCaseIdempotent(a.appName.value);
    }
    if a.packageName.Some? {
      ToLowerCaseIdempotent(a.packageName.value);
    }
  }

  /** Lifted to whole lists: lower-casing every element's names and then filtering
      gives the filtered list with its names lower-cased. */
  lemma FilteredIgnoresNameCase(apps: seq<AppItem>, filter: string)
    ensures Filtered(Map(apps, LowerNames), filter) == Map(Filtered(apps, filter), LowerNames)
  {
    if !IsBlank(filter) {
      var q := ToLowerCase(filter);
      forall a ensures MatchesQuery(q)(a) == MatchesQuery(q)(LowerNames(a)) {
        MatchesIgnoresNameCase(a, q);
      }
      FilterMap(apps, LowerNames, MatchesQuery(q), MatchesQuery(q));
    }
  }

  function LowerNames(a: AppItem): AppItem {
    AppItem(
      if a.appName.Some? then Some(ToLowerCase(a.appName.value)) else None,
      if a.packageName.Some? then Some(ToLowerCase(a.packageName.value)) else None)
  }

  /** A record of the native user listing as the screen receives it. */
  function FromUserRecord(r: InstalledAppChecker.UserAppRecord): AppItem {
    AppItem(Some(r.appName), Some(r.packageName))
  }

  /** End to end: a user package whose package name contains the non-blank filter
      text (ignoring case) is shown once the native user listing is on the screen. */
  lemma UserPackageShownByFilter(packages: seq<InstalledAppChecker.PackageInfo>, p: InstalledAppChecker.PackageInfo, filter: string)
    requires p in packages && InstalledAppChecker.IsUserPackage(p)
    requires Includes(ToLowerCase(p.packageName), ToLowerCase(filter))
    ensures FromUserRecord(InstalledAppChecker.ToUserRecord(p))
              in Filtered(Map(InstalledAppChecker.UserApps(packages), FromUserRecord), filter)
  {
    var kept := Filter(packages, InstalledAppChecker.IsUserPackage);
    var shown := Map(InstalledAppChecker.UserApps(packages), FromUserRecord);
    var item := FromUserRecord(InstalledAppChecker.ToUserRecord(p));
    FilterCount(packages, InstalledAppChecker.IsUserPackage, p);
    assert multiset(kept)[p] > 0;
    var k :| 0 <= k < |kept| && kept[k] == p;
    assert shown[k] == item;
    if !IsBlank(filter) {
      FilterCount(shown, MatchesQuery(ToLowerCase(filter)), item);
      assert multiset(shown)[item] > 0;
    }
  }

  /** A call the screen makes into the native module. */
  datatype NativeCall =
    | IsAppInstalledCall(packageName: string)
    | GetInstalledAppsCall
    | GetAllInstalledAppsCall

  /** The screen's state, one field per `useState`. */
  datatype Screen = Screen(
    pkgQuery: string,
    checkResult: Option<bool>,
    userApps: seq<AppItem>,
    allApps: seq<AppItem>,
    filter: string,
    loadingUser: bool,
    loadingAll: bool)

  class InstalledAppsTester {
    var pkgQuery: string
    var checkResult: Option<bool>
    var userApps: seq<AppItem>
    var allApps: seq<AppItem>
    var filter: string
    var loadingUser: bool
    var loadingAll: bool

    function State(): Screen
      reads this
    {
      Screen(pkgQuery, checkResult, userApps, allApps, filter, loadingUser, loadingAll)
    }

    /** The screen as first rendered. */
    constructor ()
      ensures State() == Screen("com.android.chrome", None, [], [], "", false, false)
    {
      pkgQuery := "com.android.chrome";
      checkResult := None;
      userApps := [];
      allApps := [];
      filter := "";
      loadingUser := false;
      loadingAll := false;
    }

    /** `filteredUser`: the user list when the filter text is blank, otherwise
        exactly its elements that match the lower-cased filter text. */
    function FilteredUser(): (r: seq<AppItem>)
      reads this
      ensures IsBlank(filter) ==> r == userApps
      ensures !IsBlank(filter) ==> forall a :: a in r <==> a in userApps && Matches(a, ToLowerCase(filter))
    {
      Filtered(userApps, filter)
    }

    /** `filteredAll`: the full list when the filter text is blank, otherwise
        exactly its elements that match the lower-cased filter text. */
    function FilteredAll(): (r: seq<AppItem>)
      reads this
      ensures IsBlank(filter) ==> r == allApps
      ensures !IsBlank(filter) ==> forall a :: a in r <==> a in allApps && Matches(a, ToLowerCase(filter))
    {
      Filtered(allApps, filter)
    }

    /** The package-name text input. */
    method SetPkgQuery(text: string)
      modifies this
      ensures State() == old(State()).(pkgQuery := text)
    {
      pkgQuery := text;
    }

    /** The filter text input. */
    method SetFilter(text: string)
      modifies this
      ensures State() == old(State()).(filter := text)
    {
      filter := text;
    }

    /** `onCheck`: a blank query makes no call (the screen shows a warning instead);
        otherwise the trimmed query, which is non-empty and has no white space at
        either end, goes to `isAppInstalled`. The state does not change. */
    method OnCheck() returns (call: Option<NativeCall>)
      ensures call.None? <==> forall k :: 0 <= k < |pkgQuery| ==> IsWhiteSpace(pkgQuery[k])
      ensures call.Some? ==> call.value == IsAppInstalledCall(Trim(pkgQuery))
      ensures call.Some? ==>
                call.value.packageName != ""
                && !IsWhiteSpace(call.value.packageName[0])
                && !IsWhiteSpace(call.value.packageName[|call.value.packageName| - 1])
    {
      if IsBlank(pkgQuery) {
        call := None;
        return;
      }
      call := Some(IsAppInstalledCall(Trim(pkgQuery)));
    }

    /** The `isAppInstalled` callback: the check result becomes `!!isInstalled`. */
    method OnCheckResult(isInstalled: JsValue)
      modifies this
      ensures State() == old(State()).(checkResult := Some(Truthy(isInstalled)))
    {
      checkResult := Some(Truthy(isInstalled));
    }

    /** `onGetUserApps`: off Android nothing happens; on Android the user list is
        marked loading and `getInstalledApps` is called. */
    method OnGetUserApps(os: string) returns (call: Option<NativeCall>)
      modifies this
      ensures call == if os == "android" then Some(GetInstalledAppsCall) else None
      ensures State() == if os == "android" then old(State()).(loadingUser := true) else old(State())
    {
      if os != "android" {
        call := None;
        return;
      }
      loadingUser := true;
      call := Some(GetInstalledAppsCall);
    }

    /** The `getInstalledApps` callback: store the result if it is an array, else an empty list; stop loading. */
    method OnUserApps(apps: JsValue)
      modifies this
      ensures State() == old(State()).(userApps := ArrayOrEmpty(apps), loadingUser := false)
    {
      userApps := ArrayOrEmpty(apps);
      loadingUser := false;
    }

    /** `onGetAllApps`: off Android nothing happens; on Android the full list is
        marked loading and `getAllInstalledApps` is called. */
    method OnGetAllApps(os: string) returns (call: Option<NativeCall>)
      modifies this
      ensures call == if os == "android" then Some(GetAllInstalledAppsCall) else None
      ensures State() == if os == "android" then old(State()).(loadingAll := true) else old(State())
    {
      if os != "android" {
        call := None;
        return;
      }
      loadingAll := true;
      call := Some(GetAllInstalledAppsCall);
    }

    /** The `getAllInstalledApps` callback: store the result if it is an array, else an empty list; stop loading. */
    method OnAllApps(apps: JsValue)
      modifies this
      ensures State() == old(State()).(allApps := ArrayOrEmpty(apps), loadingAll := false)
    {
      allApps := ArrayOrEmpty(apps);
      loadingAll := false;
    }

    /** `clearLists`: both lists and the filter text are emptied; the query, the
        check result and the loading flags are kept. Both shown lists are then empty. */
    method ClearLists()
      modifies this
      ensures State() == old(State()).(userApps := [], allApps := [], filter := "")
      ensures FilteredUser() == [] && FilteredAll() == []
    {
      userApps := [];
      allApps := [];
      filter := "";
    }
  }
}
