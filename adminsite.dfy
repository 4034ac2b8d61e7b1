/**
 * The custom admin site: who may enter it, the order of apps and models on the index page,
 * the context of an app's index page and the order of the site's URL patterns.
 */
module AdminSite {

  import opened Wrappers
  import opened Strings
  import opened Users
  import opened Sorting

  const SITE_HEADER := "Browse the Strep A Research Literature Database"
  const SITE_TITLE := "Strep A DB"
  const INDEX_TITLE := "Database contents"

  /** `has_permission`: every active account may enter the site, whatever its level. */
  function HasPermission(u: User): (r: bool)
    ensures r <==> IsActive(u)
    ensures !u.emailVerified ==> !r
    ensures u.accessLevel == ACCESS_DISABLED ==> !r
  {
    IsActive(u)
  }

  // ---------------------------------------------------------------- index page order

  /** One model on the index page, as the app dictionary lists it. */
  datatype ModelEntry = ModelEntry(name: string, objectName: string)

  /** One app on the index page with its models. */
  datatype App = App(name: string, appLabel: string, models: seq<ModelEntry>)

  /** The sort keys of the models the index page puts first. */
  const ORDERING: map<string, string> := map[
    "Studies" := "1",
    "Results" := "2",
    "Studies (Draft)" := "3",
    "Users" := "4",
    "Imported Datasets" := "5",
    "User Guide Documents" := "6"
  ]

  /** `ordering.get(name, name)`: a listed model's rank digit, else the name itself. */
  function ModelKey(name: string): string
  {
    if name in ORDERING then ORDERING[name] else name
  }

  predicate ModelLe(a: ModelEntry, b: ModelEntry)
  {
    LexLe(ModelKey(a.name), ModelKey(b.name))
  }

  /** Apps are compared by their lower-cased names. */
  predicate AppLe(a: App, b: App)
  {
    LexLe(Lower(a.name), Lower(b.name))
  }

  lemma ModelLeTotal()
    ensures TotalPreorder((a, b) => ModelLe(a, b))
  {
    forall a: ModelEntry, b: ModelEntry
      ensures ModelLe(a, b) || ModelLe(b, a)
    {
      LexLeTotal(ModelKey(a.name), ModelKey(b.name));
    }
    forall a: ModelEntry, b: ModelEntry, c: ModelEntry | ModelLe(a, b) && ModelLe(b, c)
      ensures ModelLe(a, c)
    {
      LexLeTransitive(ModelKey(a.name), ModelKey(b.name), ModelKey(c.name));
    }
  }

  lemma AppLeTotal()
    ensures TotalPreorder((a, b) => AppLe(a, b))
  {
    forall a: App, b: App
      ensures AppLe(a, b) || AppLe(b, a)
    {
      LexLeTotal(Lower(a.name), Lower(b.name));
    }
    forall a: App, b: App, c: App | AppLe(a, b) && AppLe(b, c)
      ensures AppLe(a, c)
    {
      LexLeTransitive(Lower(a.name), Lower(b.name), Lower(c.name));
    }
  }

  /** An app with its models sorted by their keys. */
  function WithSortedModels(app: App): App
  {
    app.(models := SortBy(app.models, (a, b) => ModelLe(a, b)))
  }

  /** The index page: apps by lower-cased name, and each app's models by key. */
  function AppList(appDict: seq<App>): (r: seq<App>)
  {
    var apps := SortBy(appDict, (a, b) => AppLe(a, b));
    seq(|apps|, i requires 0 <= i < |apps| => WithSortedModels(apps[i]))
  }

  /**
   * `get_app_list`: the apps sorted by lower-cased name, then each app's model list sorted
   * in place by its key.
   */
  method GetAppList(appDict: seq<App>) returns (appList: seq<App>)
    ensures appList == AppList(appDict)
  {
    appList := SortBy(appDict, (a, b) => AppLe(a, b));
    ghost var sortedApps := appList;
    var i := 0;
    while i < |appList|
      invariant 0 <= i <= |appList| == |sortedApps|
      invariant forall k :: 0 <= k < i ==> appList[k] == WithSortedModels(sortedApps[k])
      invariant forall k :: i <= k < |appList| ==> appList[k] == sortedApps[k]
    {
      var app := appList[i];
      appList := appList[i := app.(models := SortBy(app.models, (a, b) => ModelLe(a, b)))];
      i := i + 1;
    }
  }

  /**
   * The index page lists the same apps, ordered by lower-cased name; every app keeps its name
   * and the same models, ordered by their keys.
   */
  lemma AppListOrdered(appDict: seq<App>)
    ensures |AppList(appDict)| == |appDict|
    ensures forall i, j :: 0 <= i < j < |AppList(appDict)| ==> AppLe(AppList(appDict)[i], AppList(appDict)[j])
    ensures forall i :: 0 <= i < |AppList(appDict)| ==>
      (var app := AppList(appDict)[i];
       (exists k :: 0 <= k < |appDict| && appDict[k].name == app.name && multiset(appDict[k].models) == multiset(app.models)) &&
       Sorted(app.models, (a, b) => ModelLe(a, b)))
  {
    var apps := SortBy(appDict, (a, b) => AppLe(a, b));
    var r := AppList(appDict);
    AppLeTotal();
    ModelLeTotal();
    SortByIsSorted(appDict, (a, b) => AppLe(a, b));
    forall i | 0 <= i < |r|
      ensures (exists k :: 0 <= k < |appDict| && appDict[k].name == r[i].name && multiset(appDict[k].models) == multiset(r[i].models))
      ensures Sorted(r[i].models, (a, b) => ModelLe(a, b))
    {
      assert apps[i] in multiset(apps);
      assert apps[i] in multiset(appDict);
      var k :| 0 <= k < |appDict| && appDict[k] == apps[i];
      SortByIsSorted(apps[i].models, (a, b) => ModelLe(a, b));
    }
  }

  /** The index page is a permutation of the apps, each with its models sorted: no app is dropped or listed twice. */
  lemma AppListIsPermutation(appDict: seq<App>)
    ensures exists apps: seq<App> ::
      (multiset(apps) == multiset(appDict) && |apps| == |AppList(appDict)| &&
       forall i :: 0 <= i < |apps| ==> AppList(appDict)[i] == WithSortedModels(apps[i]))
  {
    var apps := SortBy(appDict, (a, b) => AppLe(a, b));
    assert multiset(apps) == multiset(appDict) && |apps| == |AppList(appDict)|;
  }

  /** A name the ordering table does not list and that starts with a letter. */
  predicate Unlisted(name: string)
  {
    name !in ORDERING && name != [] && ('A' <= name[0] <= 'Z' || 'a' <= name[0] <= 'z')
  }

  /**
   * The listed models come first, in the order of the table, and ahead of every unlisted model
   * whose name starts with a letter.
   */
  lemma ListedModelsFirst(a: ModelEntry, b: ModelEntry)
    ensures a.name in ORDERING && b.name in ORDERING ==>
      (ModelLe(a, b) <==> ORDERING[a.name][0] <= ORDERING[b.name][0])
    ensures a.name in ORDERING && Unlisted(b.name) ==> ModelLe(a, b) && !ModelLe(b, a)
  {
    var ka := ModelKey(a.name);
    var kb := ModelKey(b.name);
    if a.name in ORDERING {
      assert |ka| == 1 && '1' <= ka[0] <= '6';
      if b.name in ORDERING {
        assert |kb| == 1 && '1' <= kb[0] <= '6';
        if ka[0] < kb[0] {
          LexFirstChar(ka, kb);
        } else if kb[0] < ka[0] {
          LexFirstChar(kb, ka);
        } else {
          assert ka == kb;
          LexLeReflexive(ka);
        }
      }
      if Unlisted(b.name) {
        assert kb == b.name;
        LexFirstChar(ka, kb);
      }
    }
  }

  // ---------------------------------------------------------------- app index and URLs

  /**
   * `app_index`'s context: the title defaults to the site header, and a caller's own context
   * (title included) takes precedence over it.
   */
  function AppIndexContext(extraContext: Option<map<string, string>>): (r: map<string, string>)
    ensures "title" in r
    ensures r["title"] == (if extraContext.Some? && "title" in extraContext.value then extraContext.value["title"] else SITE_HEADER)
    ensures extraContext.Some? ==> forall k :: k in extraContext.value ==> k in r && r[k] == extraContext.value[k]
    ensures forall k :: k in r ==> k == "title" || (extraContext.Some? && k in extraContext.value)
  {
    map["title" := SITE_HEADER] + extraContext.GetOr(map[])
  }

  /** A URL pattern: its route and the view name it resolves to. */
  datatype UrlPattern = UrlPattern(route: string, name: Option<string>)

  const IMPORT_URL := UrlPattern("import/", Some("import_data"))
  const CATCH_ALL_URL := UrlPattern("(?P<url>.*)$", None)

  /** `get_urls`: the admin's own patterns, then the import page, then the catch-all. */
  function GetUrls(baseUrls: seq<UrlPattern>): (r: seq<UrlPattern>)
    ensures |r| == |baseUrls| + 2
    ensures r[..|baseUrls|] == baseUrls
    ensures r[|baseUrls|] == IMPORT_URL && r[|r| - 1] == CATCH_ALL_URL
  {
    baseUrls + [IMPORT_URL, CATCH_ALL_URL]
  }

  /** Patterns are tried in order: every pattern before the catch-all is one the admin or the site defines. */
  lemma CatchAllComesLast(baseUrls: seq<UrlPattern>)
    requires CATCH_ALL_URL !in baseUrls
    ensures forall i :: 0 <= i < |GetUrls(baseUrls)| - 1 ==> GetUrls(baseUrls)[i] != CATCH_ALL_URL
  {
    var r := GetUrls(baseUrls);
    forall i | 0 <= i < |r| - 1
      ensures r[i] != CATCH_ALL_URL
    {
      if i < |baseUrls| {
        assert r[i] == baseUrls[i];
      }
    }
  }
}
