# react-native-installed-app-checker, modelled in Dafny

The library bridges three Android package-manager queries to a React Native
application: `isAppInstalled`, `getInstalledApps` (user apps only) and
`getAllInstalledApps` (every app, tagged with `isSystemApp`). It also ships a
demo screen that calls them and filters the returned lists on the client.
This project models both parts and proves what they promise.

- `wrappers.dfy`: `Option`, used for Java's nullable `versionName` and for JavaScript's absent properties.
- `sequences.dfy`: an order-preserving `Filter` and `Map` over sequences and the subsequence order.
  It also holds the generic facts both parts rely on: filtering drops only, keeps every satisfying
  occurrence, is idempotent, distributes over `+` and commutes with `Map`.
- `installed_app_checker.dfy`: the Java module. The package manager is an input.
  `isAppInstalled` takes a registry map for `getPackageInfo`, where an absent name stands for `NameNotFoundException`.
  Both listings take the list `getInstalledPackages` returns (`PackageInfo` values).
  The two listing methods keep the source's loop and its accumulator.
  Each is proved equal to a specification function, `UserApps` or `AllApps`.
  Lemmas about those functions state the listing properties.
  `flags` is a 32-bit vector and `FLAG_SYSTEM` is bit 0. `versionCode` is a Java `int`.
- `js_strings.dfy`: the JavaScript string operations the screen uses.
  `trim` uses ECMAScript's exact set of white-space and line-terminator characters.
  `toLowerCase` is modelled on ASCII letters only. `includes` is substring search.
- `example_usage.dfy`: the demo screen. The list filter is a function.
  The seven `useState` variables are the fields of a class, and each handler is a method.
  A handler returns the native call it issues (or `None`).
  The callback that receives the answer is a separate method, so a listing can be observed while it is still loading.
  Every state-changing method states the whole new state as an update of `old(State())`.

Three behaviours of the code that a reader might not expect:
- The user listing's records also carry `firstInstallTime` and `lastUpdateTime`.
- The demo lowers the case of the filter text but does not trim it.
  Only the blankness test trims.
- The bridge does not reject an empty package name. A name that is not registered yields `false`.

## Model

| member | source | states |
|---|---|---|
| InstalledAppChecker.IsAppInstalled | InstalledAppChecker/android/src/main/java/com/reactlibrary/RNInstalledAppCheckerModule.java:31-41 | the one value delivered is true exactly when `getPackageInfo` returns and false exactly when it raises NameNotFound, i.e. exactly when the name is registered |
| InstalledAppChecker.ToUserRecord | InstalledAppChecker/android/src/main/java/com/reactlibrary/RNInstalledAppCheckerModule.java:52-58 | a user-app record copies packageName, label (as appName), versionCode and both timestamps; versionName is the package's when non-null and "Unknown" otherwise; by its type it has no isSystemApp |
| InstalledAppChecker.ToAnyRecord | InstalledAppChecker/android/src/main/java/com/reactlibrary/RNInstalledAppCheckerModule.java:74-79 | an all-app record copies packageName, label and versionCode, defaults versionName to "Unknown", has isSystemApp true iff flags & FLAG_SYSTEM != 0, and by its type has no timestamps |
| InstalledAppChecker.GetInstalledApps | InstalledAppChecker/android/src/main/java/com/reactlibrary/RNInstalledAppCheckerModule.java:44-65 | the loop's accumulated array equals the specification UserApps of the package list |
| InstalledAppChecker.GetAllInstalledApps | InstalledAppChecker/android/src/main/java/com/reactlibrary/RNInstalledAppCheckerModule.java:68-84 | the loop emits exactly one record per package, in input order, the k-th being the record of the k-th package; length equals input length (an empty list gives an empty array) |
| InstalledAppChecker.UserAppsIsOrderPreservingFilter | InstalledAppChecker/android/src/main/java/com/reactlibrary/RNInstalledAppCheckerModule.java:49-62 | the user listing is the records of the order-preserving filter of the packages by "system bit clear": a subsequence of the input that keeps every occurrence of a user package and no system package |
| InstalledAppChecker.UserAppsFromUserPackages | InstalledAppChecker/android/src/main/java/com/reactlibrary/RNInstalledAppCheckerModule.java:49-51 | every record of the user listing is the record of some input package whose flags & FLAG_SYSTEM == 0 |
| InstalledAppChecker.UserNamesSubsequenceOfAllNames | InstalledAppChecker/android/src/main/java/com/reactlibrary/RNInstalledAppCheckerModule.java:44-84 | over one package list, the user listing's package names form a subsequence, hence a subset, of the full listing's |
| InstalledAppChecker.UserAppsAreUntaggedAllApps | InstalledAppChecker/android/src/main/java/com/reactlibrary/RNInstalledAppCheckerModule.java:49-79 | the full listing's records with isSystemApp false are, in order and on their shared fields, exactly the user listing |
| JsStrings.Trim | InstalledAppChecker/exampleUsage.jsx:63-67 | trim yields a slice of the input padded only by white space, is empty iff the input is all white space, and otherwise starts and ends with a non-white-space character |
| JsStrings.IncludesAt | InstalledAppChecker/exampleUsage.jsx:109-110 | includes holds iff the query occurs at some position of the string |
| JsStrings.ToLowerCaseKeepsBlank | InstalledAppChecker/exampleUsage.jsx:105-106 | lowering case keeps a string blank or non-blank, so the blankness test and the query agree |
| JsStrings.IsBlank | InstalledAppChecker/exampleUsage.jsx:63 | `!s.trim()` holds exactly when every character of the string is white space (so also for the empty string) |
| JsStrings.ToLowerCase | InstalledAppChecker/exampleUsage.jsx:106 | same length; no ASCII capital remains; every character other than an ASCII capital is kept, and each capital becomes its letter 32 code points higher |
| JsStrings.Includes | InstalledAppChecker/exampleUsage.jsx:109-110 | a match implies the query is no longer than the string; its full meaning, an occurrence at some index, is the IncludesAt row |
| ExampleUsage.Truthy | InstalledAppChecker/exampleUsage.jsx:68 | `!!v` is false exactly for undefined, null, false, 0, NaN and the empty string; the callback's use of it is the OnCheckResult row |
| ExampleUsage.ArrayOrEmpty | InstalledAppChecker/exampleUsage.jsx:80 | `Array.isArray(apps) ? apps : []`: the array's items when the value is an array, the empty list otherwise; its use is the OnUserApps and OnAllApps rows |
| ExampleUsage.Matches | InstalledAppChecker/exampleUsage.jsx:108-110 | an element matches exactly when its present appName or present packageName, lower-cased, contains the query at some index; an element with neither name never matches |
| ExampleUsage.Filtered | InstalledAppChecker/exampleUsage.jsx:104-122 | the list itself under a blank filter; otherwise an element is shown exactly when it is in the list and matches the lower-cased filter (order and counts are the FilteredSpec row) |
| ExampleUsage.InstalledAppsTester.FilteredUser | InstalledAppChecker/exampleUsage.jsx:104-112 | the user list under a blank filter; otherwise exactly its elements matching the lower-cased filter |
| ExampleUsage.InstalledAppsTester.FilteredAll | InstalledAppChecker/exampleUsage.jsx:114-122 | the full list under a blank filter; otherwise exactly its elements matching the lower-cased filter |
| ExampleUsage.FilteredIgnoresNameCase | InstalledAppChecker/exampleUsage.jsx:107-111 | lower-casing every element's names and then filtering gives the filtered list with lower-cased names |
| ExampleUsage.FilteredSpec | InstalledAppChecker/exampleUsage.jsx:104-122 | a blank filter returns the list unchanged; a non-blank one returns the order-preserving subsequence holding every occurrence of an element whose lower-cased appName or packageName contains the lower-cased, untrimmed filter, and no other element |
| ExampleUsage.FilteredIdempotent | InstalledAppChecker/exampleUsage.jsx:107-111 | applying the same filter text twice gives the same list as once |
| ExampleUsage.NamelessNeverMatches | InstalledAppChecker/exampleUsage.jsx:109-110 | an element with both appName and packageName absent is never shown under a non-blank filter |
| ExampleUsage.FilteredIgnoresFilterCase | InstalledAppChecker/exampleUsage.jsx:105-106 | two filter texts with the same lower-case form show the same elements |
| ExampleUsage.MatchesIgnoresNameCase | InstalledAppChecker/exampleUsage.jsx:109-110 | an element matches exactly when the same element with lower-cased names does |
| ExampleUsage.UserPackageShownByFilter | InstalledAppChecker/exampleUsage.jsx:78-111 | a user package in the platform list whose package name contains the filter text, ignoring case, is shown once the native user listing is stored and filtered |
| ExampleUsage.InstalledAppsTester.constructor | InstalledAppChecker/exampleUsage.jsx:52-58 | initial state: query "com.android.chrome", no check result, empty lists and filter, not loading |
| ExampleUsage.InstalledAppsTester.SetPkgQuery | InstalledAppChecker/exampleUsage.jsx:150-153 | the query input replaces pkgQuery and nothing else |
| ExampleUsage.InstalledAppsTester.SetFilter | InstalledAppChecker/exampleUsage.jsx:172-175 | the filter input replaces filter and nothing else |
| ExampleUsage.InstalledAppsTester.OnCheck | InstalledAppChecker/exampleUsage.jsx:62-70 | no native call exactly when the query is empty or only white space; otherwise isAppInstalled is called with the trimmed query, which is non-empty and has no white space at either end; the state is unchanged |
| ExampleUsage.InstalledAppsTester.OnCheckResult | InstalledAppChecker/exampleUsage.jsx:67-69 | the callback sets checkResult to the boolean coercion of its argument and changes nothing else |
| ExampleUsage.InstalledAppsTester.OnGetUserApps | InstalledAppChecker/exampleUsage.jsx:72-77 | off Android no call and no state change; on Android getInstalledApps is called and only loadingUser becomes true |
| ExampleUsage.InstalledAppsTester.OnUserApps | InstalledAppChecker/exampleUsage.jsx:78-82 | the callback stores the result if it is an array, an empty list otherwise, and clears loadingUser; nothing else changes |
| ExampleUsage.InstalledAppsTester.OnGetAllApps | InstalledAppChecker/exampleUsage.jsx:85-90 | off Android no call and no state change; on Android getAllInstalledApps is called and only loadingAll becomes true |
| ExampleUsage.InstalledAppsTester.OnAllApps | InstalledAppChecker/exampleUsage.jsx:91-95 | the callback stores the result if it is an array, an empty list otherwise, and clears loadingAll; nothing else changes |
| ExampleUsage.InstalledAppsTester.ClearLists | InstalledAppChecker/exampleUsage.jsx:98-102 | both lists and the filter become empty, so both shown lists are empty; query, check result and loading flags are kept |

## Left out

- InstalledAppChecker/index.js only forwards each call to `NativeModules`. It has no logic and is not modelled.
- The package manager (`getPackageInfo`, `getInstalledPackages`, `loadLabel`) is not modelled as behaviour.
  Its answers are inputs: a registry map and a package list. The model does not relate the two,
  because package visibility can make the platform's answers to the two calls differ.
- Exceptions other than `NameNotFoundException` (for example a null package name) propagate in the source. They are not modelled.
- Asynchrony and bridge marshalling (`Callback.invoke`, `WritableArray`, `WritableMap`) are not modelled.
  Each Java method returns the one value its callback receives, so "invoked exactly once" holds by construction.
  On the screen, handlers and callbacks are separate transitions that a client may interleave freely.
  The model does not say in which order the native side answers.
- The timestamps' conversion to `double` (`putDouble`) is floating point. The timestamps are opaque integers copied through,
  so precision lost above 2^53 is not modelled.
- `toLowerCase` is modelled on ASCII letters only. Full Unicode case mapping is not modelled.
- JavaScript values are modelled without fractional numbers, BigInt, symbols or functions.
  An array element is modelled only by `appName` and `packageName`, the two properties the filter reads.
  A null or undefined array element, or a name that is not a string, would throw in the source under a non-blank filter. That is not modelled.
- All rendering is not modelled: `Button` (including `disabled={loadingUser}`), `Pill`, `renderItem`,
  `keyExtractor`, `FlatList`, `RefreshControl`, `Alert` and `StyleSheet`. `Platform.OS` is a string input.
- The module's constructor and `getName` (which returns "RNInstalledAppChecker") are React Native registration and are not modelled.
