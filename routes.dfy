/** The navigation graph's routes: fixed strings for most screens, a
    `prefix/{param}` template plus a `createRoute(id)` builder for the four
    screens that show one item, and the bottom navigation bar's tabs. */
module Navigation {

  datatype Screen =
    | Login | SignUp | ResetPassword
    | Home | Browse | Search | Favorites | Collections
    | QuoteDetail | CategoryQuotes | CollectionDetail
    | Profile | Settings
    | ShareQuote

  /** The screens shown for one item, which have a `createRoute`. */
  predicate TakesId(s: Screen) {
    s.QuoteDetail? || s.CategoryQuotes? || s.CollectionDetail? || s.ShareQuote?
  }

  /** `Screen.route`. */
  function Route(s: Screen): string {
    match s
    case Login => "login"
    case SignUp => "signup"
    case ResetPassword => "reset_password"
    case Home => "home"
    case Browse => "browse"
    case Search => "search"
    case Favorites => "favorites"
    case Collections => "collections"
    case QuoteDetail => "quote/{quoteId}"
    case CategoryQuotes => "category/{categoryId}"
    case CollectionDetail => "collection/{collectionId}"
    case Profile => "profile"
    case Settings => "settings"
    case ShareQuote => "share/{quoteId}"
  }

  /** The fixed part of an item screen's route, up to and including `/`. */
  function Prefix(s: Screen): (r: string)
    requires TakesId(s)
    ensures |r| > 0 && r[|r| - 1] == '/' && '/' !in r[..|r| - 1]
  {
    match s
    case QuoteDetail => "quote/"
    case CategoryQuotes => "category/"
    case CollectionDetail => "collection/"
    case ShareQuote => "share/"
  }

  /** The name of the placeholder in an item screen's template. */
  function Param(s: Screen): string
    requires TakesId(s)
  {
    match s
    case QuoteDetail => "quoteId"
    case CategoryQuotes => "categoryId"
    case CollectionDetail => "collectionId"
    case ShareQuote => "quoteId"
  }

  /** `createRoute(id)`: the id right after the screen's prefix. */
  function CreateRoute(s: Screen, id: string): (r: string)
    requires TakesId(s)
    ensures |r| == |Prefix(s)| + |id|
    ensures r[..|Prefix(s)|] == Prefix(s) && r[|Prefix(s)|..] == id
  {
    Prefix(s) + id
  }

  // ---------------------------------------------------------------------
  // properties

  lemma QuoteTemplate()
    ensures Route(QuoteDetail) == Prefix(QuoteDetail) + "{" + Param(QuoteDetail) + "}"
  {
    assert "quote/{quoteId}" == "quote/" + "{" + "quoteId" + "}";
  }

  lemma CategoryTemplate()
    ensures Route(CategoryQuotes) == Prefix(CategoryQuotes) + "{" + Param(CategoryQuotes) + "}"
  {
    assert "category/{categoryId}" == "category/" + "{" + "categoryId" + "}";
  }

  lemma CollectionTemplate()
    ensures Route(CollectionDetail) == Prefix(CollectionDetail) + "{" + Param(CollectionDetail) + "}"
  {
    assert "collection/{collectionId}" == "collection/" + "{" + "collectionId" + "}";
  }

  lemma ShareTemplate()
    ensures Route(ShareQuote) == Prefix(ShareQuote) + "{" + Param(ShareQuote) + "}"
  {
    assert "share/{quoteId}" == "share/" + "{" + "quoteId" + "}";
  }

  /** Every template is its builder's prefix followed by a `{param}`
      placeholder, so the template is the route built for the id
      `"{param}"`. */
  lemma TemplatesMatchBuilders(s: Screen)
    requires TakesId(s)
    ensures Route(s) == Prefix(s) + "{" + Param(s) + "}"
    ensures Route(s) == CreateRoute(s, "{" + Param(s) + "}")
  {
    match s
    case QuoteDetail => QuoteTemplate();
    case CategoryQuotes => CategoryTemplate();
    case CollectionDetail => CollectionTemplate();
    case ShareQuote => ShareTemplate();
  }

  /** Different ids give different routes. */
  lemma CreateRouteInjective(s: Screen, a: string, b: string)
    requires TakesId(s)
    ensures CreateRoute(s, a) == CreateRoute(s, b) ==> a == b
  {
  }

  /** Routes built for different screens never coincide, whatever the ids:
      the prefixes differ within their common length. */
  lemma CreateRouteDisjoint(s: Screen, t: Screen, a: string, b: string)
    requires TakesId(s) && TakesId(t) && s != t
    ensures CreateRoute(s, a) != CreateRoute(t, b)
  {
    var k := if (s.CategoryQuotes? && t.CollectionDetail?) || (s.CollectionDetail? && t.CategoryQuotes?) then 1 else 0;
    assert Prefix(s)[k] != Prefix(t)[k];
    assert CreateRoute(s, a)[k] == Prefix(s)[k];
    assert CreateRoute(t, b)[k] == Prefix(t)[k];
  }

  /** A built route contains a `/`, so it is never the route of a screen
      without an id. */
  lemma CreateRouteNotPlain(s: Screen, id: string, p: Screen)
    requires TakesId(s) && !TakesId(p)
    ensures CreateRoute(s, id) != Route(p)
  {
    var r := CreateRoute(s, id);
    assert r[|Prefix(s)| - 1] == '/';
    assert '/' !in Route(p);
  }

  /** No two screens share a route. */
  lemma RoutesDistinct(s: Screen, t: Screen)
    requires s != t
    ensures Route(s) != Route(t)
  {
  }

  // ---------------------------------------------------------------------
  // the bottom navigation bar

  datatype BottomNavItem = HomeTab | BrowseTab | SearchTab | FavoritesTab | CollectionsTab

  /** The screen a tab opens. */
  function TabScreen(i: BottomNavItem): Screen {
    match i
    case HomeTab => Home
    case BrowseTab => Browse
    case SearchTab => Search
    case FavoritesTab => Favorites
    case CollectionsTab => Collections
  }

  /** `BottomNavItem.route`: the route of the screen the tab opens. */
  function TabRoute(i: BottomNavItem): (r: string)
    ensures r == Route(TabScreen(i)) && !TakesId(TabScreen(i))
  {
    match i
    case HomeTab => Route(Home)
    case BrowseTab => Route(Browse)
    case SearchTab => Route(Search)
    case FavoritesTab => Route(Favorites)
    case CollectionsTab => Route(Collections)
  }

  /** `BottomNavItem.label`. */
  function TabLabel(i: BottomNavItem): string {
    match i
    case HomeTab => "Home"
    case BrowseTab => "Browse"
    case SearchTab => "Search"
    case FavoritesTab => "Favorites"
    case CollectionsTab => "Collections"
  }

  /** Each tab has its own route, and following a tab never lands on an
      item screen's built route. */
  lemma TabsDistinct(i: BottomNavItem, j: BottomNavItem, s: Screen, id: string)
    requires TakesId(s)
    ensures i != j ==> TabRoute(i) != TabRoute(j)
    ensures TabRoute(i) != CreateRoute(s, id)
  {
    if i != j {
      RoutesDistinct(TabScreen(i), TabScreen(j));
    }
    CreateRouteNotPlain(s, id, TabScreen(i));
  }
}
