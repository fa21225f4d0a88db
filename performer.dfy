/** The view-state logic of the performer detail page,
    ui/v2.5/src/components/Performers/PerformerDetails/Performer.tsx: the tab
    keys, the default tab chosen from the performer's counts, the navigation
    issued when a tab is selected, the edit toggle with its staged image, the
    delete and save handlers, and the loader's routing decision. Rendering,
    hotkeys and the GraphQL hooks are outside the model; their outcomes are
    parameters. */
module PerformerPage {
  import opened Common

  // ---------------------------------------------------------------------------
  // Tab keys
  // ---------------------------------------------------------------------------

  /** `TabKey`, the members of `validTabs`. */
  datatype TabKey = Default | Scenes | Galleries | Images | Movies | AppearsWith

  /** `validTabs`, as the strings the router and the tab control use. */
  const ValidTabs: seq<string> := ["default", "scenes", "galleries", "images", "movies", "appearswith"]

  /** The string of a tab key. */
  function TabName(t: TabKey): (s: string)
    ensures s in ValidTabs
  {
    match t
    case Default => "default"
    case Scenes => "scenes"
    case Galleries => "galleries"
    case Images => "images"
    case Movies => "movies"
    case AppearsWith => "appearswith"
  }

  /** `isTabKey`: the string is one of `validTabs`, that is, the name of a tab key. */
  predicate IsTabKey(s: string)
    ensures IsTabKey(s) <==> exists t :: TabName(t) == s
  {
    assert s in ValidTabs ==> TabName(ParseTab(s).value) == s;
    s in ValidTabs
  }

  /** The tab key a string names, if any (the narrowing `tab is TabKey`). */
  function ParseTab(s: string): (r: Option<TabKey>)
    ensures r.Some? ==> TabName(r.value) == s
    ensures r.None? ==> s !in ValidTabs
  {
    if s == "default" then Some(Default)
    else if s == "scenes" then Some(Scenes)
    else if s == "galleries" then Some(Galleries)
    else if s == "images" then Some(Images)
    else if s == "movies" then Some(Movies)
    else if s == "appearswith" then Some(AppearsWith)
    else None
  }

  /** Naming a tab and parsing the name back gives the same tab; distinct
      tabs have distinct names. */
  lemma ParseTabName(t: TabKey)
    ensures ParseTab(TabName(t)) == Some(t)
    ensures forall u :: TabName(u) == TabName(t) ==> u == t
  {
  }

  // ---------------------------------------------------------------------------
  // The default tab
  // ---------------------------------------------------------------------------

  /** The fields of the performer record the page logic reads. */
  datatype Performer = Performer(
    id: string,
    imagePath: Option<string>,
    sceneCount: int,
    galleryCount: int,
    imageCount: int,
    movieCount: int,
    performerCount: int)

  /** The counter shown on each tab; the "default" pseudo-tab has none. */
  function Count(p: Performer, t: TabKey): int
  {
    match t
    case Default => 0
    case Scenes => p.sceneCount
    case Galleries => p.galleryCount
    case Images => p.imageCount
    case Movies => p.movieCount
    case AppearsWith => p.performerCount
  }

  /** The tabs that may stand in for "default", highest priority first. */
  const DefaultPriority: seq<TabKey> := [Scenes, Galleries, Images, Movies]

  /** The position of a tab in `DefaultPriority` (past its end for the others). */
  function Rank(t: TabKey): nat
  {
    match t
    case Scenes => 0
    case Galleries => 1
    case Images => 2
    case Movies => 3
    case _ => 4
  }

  /** `populatedDefaultTab`: the highest-priority tab with a non-zero count,
      or "scenes" when all four counts are zero. */
  function PopulatedDefaultTab(p: Performer): (t: TabKey)
    ensures t in DefaultPriority
    ensures t != Default && t != AppearsWith
    ensures Count(p, t) != 0 || forall u :: u in DefaultPriority ==> Count(p, u) == 0
    ensures Count(p, t) == 0 ==> t == Scenes
    ensures forall u :: u in DefaultPriority && Count(p, u) != 0 ==> Rank(t) <= Rank(u)
  {
    if p.sceneCount == 0 then
      if p.galleryCount != 0 then Galleries
      else if p.imageCount != 0 then Images
      else if p.movieCount != 0 then Movies
      else Scenes
    else Scenes
  }

  /** The tab the page shows for a requested tab: "default" is replaced by
      the populated default, any other tab is kept. */
  function EffectiveTab(requested: TabKey, p: Performer): (t: TabKey)
    ensures t != Default
    ensures requested != Default ==> t == requested
    ensures requested == Default ==> t in DefaultPriority && t == PopulatedDefaultTab(p)
  {
    if requested == Default then PopulatedDefaultTab(p) else requested
  }

  // ---------------------------------------------------------------------------
  // Routes and the loader
  // ---------------------------------------------------------------------------

  /** A performer route: `/performers/{id}` or `/performers/{id}/{tab}`. */
  datatype Route = Route(id: string, tab: Option<string>)

  /** The path of a route. */
  function Path(r: Route): string
  {
    match r.tab
    case None => "/performers/" + r.id
    case Some(t) => "/performers/" + r.id + "/" + t
  }

  /** What the loader renders. */
  datatype LoaderView =
    | Loading
    | ErrorMessage(message: string)
    | RedirectTo(route: Route)
    | Page(performer: Performer, tab: TabKey)

  /** `PerformerLoader`: loading, then error, then not found; a missing (or
      empty) tab renders "default", an unknown tab redirects to the
      performer's canonical route, and a known tab renders that tab. */
  function Loader(id: string, tab: Option<string>, loading: bool, error: Option<string>, found: Option<Performer>)
    : (v: LoaderView)
    ensures loading <==> v == Loading
    ensures !loading && error.Some? ==> v == ErrorMessage(error.value)
    ensures !loading && error.None? && found.None? ==> v == ErrorMessage("No performer found with id " + id + ".")
    ensures v.ErrorMessage? <==> !loading && (error.Some? || found.None?)
    ensures v.RedirectTo? <==>
      !loading && error.None? && found.Some? && tab.Some? && tab.value != "" && !IsTabKey(tab.value)
    ensures v.RedirectTo? ==> v.route == Route(id, None)
    ensures v.Page? ==>
      && Some(v.performer) == found
      && (if tab.None? || tab.value == "" then v.tab == Default else TabName(v.tab) == tab.value)
  {
    if loading then Loading
    else if error.Some? then ErrorMessage(error.value)
    else if found.None? then ErrorMessage("No performer found with id " + id + ".")
    else if tab.None? || tab.value == "" then Page(found.value, Default)
    else if !IsTabKey(tab.value) then RedirectTo(Route(id, None))
    else Page(found.value, ParseTab(tab.value).value)
  }

  /** Once the performer is found the loader settles: it renders a page, or
      redirects to a route that renders the page's default tab. */
  lemma LoaderSettles(id: string, tab: Option<string>, p: Performer)
    ensures var v := Loader(id, tab, false, None, Some(p));
      v.Page? || (v.RedirectTo? && Loader(v.route.id, v.route.tab, false, None, Some(p)) == Page(p, Default))
  {
  }

  // ---------------------------------------------------------------------------
  // Tab navigation
  // ---------------------------------------------------------------------------

  /** The key `setTabKey` works with: null, "" or "default" become the
      populated default's name. */
  function NormalizedKey(p: Performer, newKey: Option<string>): (k: string)
    ensures k != "default" && k != ""
    ensures newKey.Some? && newKey.value != "" && newKey.value != "default" ==> k == newKey.value
    ensures newKey.None? || newKey.value == "" || newKey.value == "default" ==> k == TabName(PopulatedDefaultTab(p))
  {
    if newKey.None? || newKey.value == "" || newKey.value == "default" then TabName(PopulatedDefaultTab(p))
    else newKey.value
  }

  /** `setTabKey`: no navigation when the key is the current tab; the
      canonical route for the populated default; the tab's route for any
      other valid tab; no navigation for an unknown key. */
  function TabNavigation(current: TabKey, p: Performer, newKey: Option<string>): (r: Option<Route>)
    ensures r.Some? ==> r.value.id == p.id
    ensures r.Some? ==> (r.value.tab.None? <==> NormalizedKey(p, newKey) == TabName(PopulatedDefaultTab(p)))
    ensures r.Some? && r.value.tab.Some? ==> r.value.tab.value == NormalizedKey(p, newKey) && IsTabKey(r.value.tab.value)
  {
    var key := NormalizedKey(p, newKey);
    if key == TabName(current) then None
    else if key == TabName(PopulatedDefaultTab(p)) then Some(Route(p.id, None))
    else if IsTabKey(key) then Some(Route(p.id, Some(key)))
    else None
  }

  /** `setTabKey` navigates exactly when the normalised key names a tab other
      than the current one. */
  lemma TabNavigationWhen(current: TabKey, p: Performer, newKey: Option<string>)
    ensures TabNavigation(current, p, newKey).Some? <==>
      NormalizedKey(p, newKey) != TabName(current) && IsTabKey(NormalizedKey(p, newKey))
  {
  }

  /** Every navigation `setTabKey` issues is to a route of this performer
      that the loader renders with the requested tab in effect; the populated
      default is only ever reached through the canonical route. */
  lemma TabNavigationLands(current: TabKey, p: Performer, newKey: Option<string>)
    requires TabNavigation(current, p, newKey).Some?
    ensures var route := TabNavigation(current, p, newKey).value;
      var v := Loader(route.id, route.tab, false, None, Some(p));
      && route.id == p.id
      && (route.tab.Some? ==> route.tab.value != TabName(PopulatedDefaultTab(p)))
      && (route.tab.None? <==> NormalizedKey(p, newKey) == TabName(PopulatedDefaultTab(p)))
      && (route.tab.Some? ==> route.tab.value == NormalizedKey(p, newKey))
      && v.Page?
      && TabName(EffectiveTab(v.tab, p)) == NormalizedKey(p, newKey)
      && EffectiveTab(v.tab, p) != current
  {
  }

  // ---------------------------------------------------------------------------
  // The page
  // ---------------------------------------------------------------------------

  /** The `image` state: `undefined` (nothing staged), `null` (image removed
      in the edit panel) or a staged image URL. */
  datatype StagedImage = Unset | Cleared | Staged(url: string)

  /** A call on the router's history. */
  datatype Navigation = Replace(path: string) | Push(path: string)

  /** The image the page shows. `markDefault` stands for rewriting the
      performer's image URL with the search parameter `default=true`. */
  function ActiveImage(p: Performer, isEditing: bool, image: StagedImage, markDefault: string -> string)
    : (r: Option<string>)
    ensures !isEditing ==> r == p.imagePath
    ensures isEditing && image.Staged? && image.url != "" ==> r == Some(image.url)
    ensures isEditing && image.Cleared? && p.imagePath.Some? && p.imagePath.value != "" ==>
      r == Some(markDefault(p.imagePath.value))
    ensures (&& !(isEditing && image.Cleared? && p.imagePath.Some? && p.imagePath.value != "")
             && !(isEditing && image.Staged? && image.url != ""))
      ==> r == p.imagePath
  {
    if isEditing && image.Cleared? && p.imagePath.Some? && p.imagePath.value != "" then
      Some(markDefault(p.imagePath.value))
    else if isEditing && image.Staged? && image.url != "" then
      Some(image.url)
    else
      p.imagePath
  }

  /** `PerformerPage`: the props it was rendered with and its local state. */
  class PerformerView {
    const performer: Performer
    /** The tab in effect, after "default" is replaced. */
    const tabKey: TabKey
    var isEditing: bool
    var image: StagedImage
    var collapsed: bool
    var history: seq<Navigation>
    var toasts: seq<Toast>

    /** Initial state: collapsed unless all details are shown (default true),
        not editing, nothing staged. */
    constructor (performer: Performer, tabKey: TabKey, showAllDetails: Option<bool>)
      ensures this.performer == performer
      ensures this.tabKey == EffectiveTab(tabKey, performer)
      ensures collapsed == !(if showAllDetails.Some? then showAllDetails.value else true)
      ensures !isEditing && image == Unset && history == [] && toasts == []
    {
      this.performer := performer;
      this.tabKey := EffectiveTab(tabKey, performer);
      collapsed := !(if showAllDetails.Some? then showAllDetails.value else true);
      isEditing := false;
      image := Unset;
      history := [];
      toasts := [];
    }

    /** The image the page currently shows. */
    function Shown(markDefault: string -> string): Option<string>
      reads this
    {
      ActiveImage(performer, isEditing, image, markDefault)
    }

    /** `setTabKey`: replaces the history entry with the route chosen by
        `TabNavigation`, or does nothing. */
    method SetTabKey(newKey: Option<string>)
      modifies this`history
      ensures TabNavigation(tabKey, performer, newKey).None? ==> history == old(history)
      ensures TabNavigation(tabKey, performer, newKey).Some? ==>
        history == old(history) + [Replace(Path(TabNavigation(tabKey, performer, newKey).value))]
    {
      var key := NormalizedKey(performer, newKey);
      if key == TabName(tabKey) {
        return;
      }
      if key == TabName(PopulatedDefaultTab(performer)) {
        history := history + [Replace(Path(Route(performer.id, None)))];
      } else if IsTabKey(key) {
        history := history + [Replace(Path(Route(performer.id, Some(key))))];
      }
    }

    /** `toggleEditing`: set the edit flag to the given value or flip it, and
        drop the staged image, so the page shows the performer's own image. */
    method ToggleEditing(value: Option<bool>, ghost markDefault: string -> string)
      modifies this`isEditing, this`image
      ensures isEditing == (if value.Some? then value.value else !old(isEditing))
      ensures image == Unset
      ensures Shown(markDefault) == performer.imagePath
    {
      if value.Some? {
        isEditing := value.value;
      } else {
        isEditing := !isEditing;
      }
      image := Unset;
    }

    /** `setImage`, as called by the edit panel. */
    method SetImage(staged: StagedImage)
      modifies this`image
      ensures image == staged
    {
      image := staged;
    }

    /** The collapse button and hotkey: `setCollapsed(!collapsed)`. */
    method ToggleCollapsed()
      modifies this`collapsed
      ensures collapsed == !old(collapsed)
    {
      collapsed := !collapsed;
    }

    /** `onDelete`: a failed delete raises an error toast; either way the
        page then navigates to the performer list. */
    method OnDelete(deleteError: Option<string>)
      modifies this`history, this`toasts
      ensures history == old(history) + [Push("/performers")]
      ensures toasts == old(toasts) + (if deleteError.Some? then [ToastError(deleteError.value)] else [])
    {
      if deleteError.Some? {
        toasts := toasts + [ToastError(deleteError.value)];
      }
      history := history + [Push("/performers")];
    }

    /** `onSave`: after a successful update, leave edit mode and raise a
        success toast; a failed update propagates its error and changes nothing. */
    method OnSave(updated: bool, message: string, ghost markDefault: string -> string)
      modifies this`isEditing, this`image, this`toasts
      ensures updated ==> !isEditing && image == Unset && toasts == old(toasts) + [ToastSuccess(message)]
      ensures updated ==> Shown(markDefault) == performer.imagePath
      ensures !updated ==> isEditing == old(isEditing) && image == old(image) && toasts == old(toasts)
    {
      if updated {
        ToggleEditing(Some(false), markDefault);
        toasts := toasts + [ToastSuccess(message)];
      }
    }
  }

  /** Selecting any tab while showing it changes nothing, and selecting
      "default" while on the populated default does not navigate either. */
  lemma SelectingCurrentTabIsNoOp(p: Performer, requested: TabKey)
    ensures TabNavigation(EffectiveTab(requested, p), p, Some(TabName(EffectiveTab(requested, p)))) == None
    ensures requested == Default ==> TabNavigation(EffectiveTab(requested, p), p, Some("default")) == None
    ensures requested == Default ==> TabNavigation(EffectiveTab(requested, p), p, None) == None
  {
  }
}
