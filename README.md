# Entity select widget and performer page: a Dafny model

This project models the decision and list logic inside two React components of
a media-cataloguing web client:

- the generic entity select widget (`ui/v2.5/src/components/Shared/Select.tsx`):
  normalising the value the dropdown reports, capping the option menu while
  keeping the "Create …" entry visible, the initial values of
  `SelectComponent`, the option projection, selection reporting and inline
  creation of `FilterSelectComponent`, and the item padding of
  `MarkerTitleSuggest`;
- the performer detail page (`ui/v2.5/src/components/Performers/PerformerDetails/Performer.tsx`):
  the tab keys, the default tab chosen from the performer's counts, the
  navigation issued by `setTabKey`, the edit toggle and staged image, the
  delete and save handlers, and the routing decision of `PerformerLoader`.

Files:

- `common.dfy` (module `Common`): nullable values (`Option`), toasts, and the
  array operations the components use (`Filter`, `Map`, `FindIndex`) with
  their specifications and lemmas (order preservation, filters that agree,
  filter/map commutation, the first element of a filter).
- `select.dfy` (module `Select`): pure functions for the select logic, the
  class `LimitedSelectMenu` (the `hiddenCount` state), the class
  `FilterSelectComponent` (the `loading` flag, the `onSelect` calls and the toasts),
  and the method `MarkerItems`.
- `performer.dfy` (module `PerformerPage`): tab keys, the default tab, routes
  and the loader as functions over datatypes; the class `PerformerView` holds
  `isEditing`, `image`, `collapsed`, and records the router calls
  (`history.replace` / `history.push`) and toasts its handlers issue.

React, the dropdown library, the router and the GraphQL client are outside the
model. What they deliver is passed in as parameters: the outcome of a create,
update or delete call, the `loading` / `error` / data triple of a query, the
configured cap, and the URL rewrite that marks an image as the default one
(`markDefault`).

Behaviour of the code that the model states explicitly:

- The menu cap keeps the "Create" entry: the comment at Select.tsx:144-145
  says the menu always shows that entry when it exists. When the entry has to
  be pinned (its index is at or past the cap), the code writes
  `len - max - 1` to `hiddenCount` (Select.tsx:160), one less than the
  `len - max` children it leaves out, and the notice
  "{hiddenCount} Options Hidden" (Select.tsx:175-176) shows that count.
  `LimitPinsCreation` and `HiddenExactUnlessPinned` state this; with
  `len == max + 1` the count is 0 and no notice is rendered
  (`PinnedSingleOmissionUnreported`, `LimitedSelectMenu.RenderChildren`).
- `onCreate` sets `loading` before awaiting the creation and clears it only
  after a successful one (Select.tsx:307-313); the `catch` branch raises a
  toast and leaves `loading` set. The loading flag passed down is
  `props.isLoading || loading` (Select.tsx:327), and the creatable dropdown
  is disabled by `isLoading || isDisabled` (Select.tsx:267), so after a
  failed creation it stays disabled. `FilterSelectComponent.OnCreate` states
  this.
- `setTabKey` (Performer.tsx:140-149) replaces only a null, empty or
  "default" key with the populated default tab, ignores a key that is not a
  tab, and navigates to any valid tab whatever its count. An unknown tab in
  the URL makes `PerformerLoader` redirect to the canonical route
  (Performer.tsx:628-637).
- The selection filters (Select.tsx:302, 310) keep every copy of a matching
  item, so an item listed twice in `items` is reported twice; the
  multiplicity clauses of `ItemsWithIds`, `OnChangeSelection`,
  `SelectedOptions` and `InitialValues` state this.

## Model

| member | source | states |
|---|---|---|
| Select.SelectedItems | ui/v2.5/src/components/Shared/Select.tsx:117-125 | an array is kept, a single option becomes a one-element list, null/undefined the empty list |
| Select.SelectedValues | ui/v2.5/src/components/Shared/Select.tsx:127-128 | same length as the selected items, and the i-th entry is the i-th item's value |
| Select.Present | ui/v2.5/src/components/Shared/Select.tsx:207-210 | multi mode: all chosen options; single mode: the first chosen option, or null when none is chosen (also Select.tsx:296-298) |
| Select.SelectedItemsOfPresent | ui/v2.5/src/components/Shared/Select.tsx:207-210 | reading back the value given to the dropdown yields all chosen options in multi mode and at most the first in single mode |
| Select.LimitChildren | ui/v2.5/src/components/Shared/Select.tsx:142-171 | non-array children pass through with hidden count 0; for an array the menu shows exactly min(len, max) nodes and the hidden count is never negative |
| Select.LimitKeepsPrefix | ui/v2.5/src/components/Shared/Select.tsx:164-167 | with no creation entry at or past the cap: the shown nodes are the prefix of length min(len, max), the hidden count is max(len - max, 0), equal to the number left out, and a creation entry stays at its own position |
| Select.LimitPinsCreation | ui/v2.5/src/components/Shared/Select.tsx:159-163 | with the creation entry at k >= max: the first max - 1 children followed by children[k], exactly max nodes, the last one flagged new; the reported count is one less than the number of children left out |
| Select.HiddenExactUnlessPinned | ui/v2.5/src/components/Shared/Select.tsx:159-167 | the reported count equals the number left out if and only if the creation index is below the cap |
| Select.PinnedSingleOmissionUnreported | ui/v2.5/src/components/Shared/Select.tsx:159-176 | when pinning leaves out one child the reported count is 0, so the notice is not rendered |
| Select.LimitKeepsOrderAndCreation | ui/v2.5/src/components/Shared/Select.tsx:146-166 | the shown nodes are a subsequence of the children (never reordered) and always include the first creation entry |
| Select.LimitedSelectMenu.constructor | ui/v2.5/src/components/Shared/Select.tsx:133-137 | the cap is the configured value, else the default; the hidden count starts at 0 |
| Select.LimitedSelectMenu.RenderChildren | ui/v2.5/src/components/Shared/Select.tsx:142-176 | the rendered children and the new `hiddenCount` are those of `LimitChildren`; the "Options Hidden" notice (`ShowsHiddenNotice`) appears exactly when the children are an array longer than the cap, plus one when the creation entry is pinned |
| Select.InitialValues | ui/v2.5/src/components/Shared/Select.tsx:206 | the items whose value is among the initial ids, in item order, each with all its copies; with no initial ids every item |
| Select.DefaultValue | ui/v2.5/src/components/Shared/Select.tsx:206-210 | multi mode: all initial values; single mode: the first item that is an initial value, or null exactly when there is none |
| Select.DefaultOption | ui/v2.5/src/components/Shared/Select.tsx:287-290 | value is the id; label is the name, else the title, else "" |
| Select.ItemOptions | ui/v2.5/src/components/Shared/Select.tsx:283-291 | one option per item, in order: `toOption(item)` when supplied, else the default option |
| Select.SelectedOptions | ui/v2.5/src/components/Shared/Select.tsx:293-295 | the options whose value is a selected id, in option order, and every such option with all its copies |
| Select.ItemsWithIds | ui/v2.5/src/components/Shared/Select.tsx:302-310 | the items whose id is one of the given ids, in item order, and every such item with all its copies (the filters at lines 302 and 310) |
| Select.OnChangeSelection | ui/v2.5/src/components/Shared/Select.tsx:300-303 | the items whose id is among the reported values, in item order, and every such item with all its copies |
| Select.SelectedOptionsAreOptionsOfSelectedItems | ui/v2.5/src/components/Shared/Select.tsx:283-298 | with the default projection, the options shown as selected are the options of the selected items |
| Select.OnChangeEchoesSelection | ui/v2.5/src/components/Shared/Select.tsx:293-303 | in multi mode with the default projection, when the dropdown hands back the selection it was given, the same items are reported as selected |
| Select.FilterSelectComponent.constructor | ui/v2.5/src/components/Shared/Select.tsx:278-280 | selected ids default to the empty list; `loading` starts false, so the loading flag passed down (`IsLoading`, Select.tsx:327) is the prop's own |
| Select.FilterSelectComponent.OnChange | ui/v2.5/src/components/Shared/Select.tsx:300-303 | `onSelect`, when present, receives `OnChangeSelection` of the reported value |
| Select.FilterSelectComponent.OnCreate | ui/v2.5/src/components/Shared/Select.tsx:305-322 | success: reports the current selection followed by the new item, clears `loading` so the creatable dropdown is disabled exactly by the props (`CreatableDisabled`, Select.tsx:267, 327), raises a success toast; failure: reports nothing, raises an error toast, leaves `loading` set so the creatable dropdown is disabled whatever the props |
| Select.CreatedSelectionExtendsCurrent | ui/v2.5/src/components/Shared/Select.tsx:309-312 | the list reported after a creation ends with the new item and keeps every currently selected item before it |
| Select.SuggestionOption | ui/v2.5/src/components/Shared/Select.tsx:498-501 | label and value are both the suggestion's title, or "" when it is missing |
| Select.MarkerTitleOf | ui/v2.5/src/components/Shared/Select.tsx:495-496 | the chosen option's value, or "" when nothing is chosen |
| Select.MarkerItems | ui/v2.5/src/components/Shared/Select.tsx:498-511 | one item per suggestion, plus the initial title while loading; the initial ids hold the title only when it is non-empty; while loading, the default value reports that title back |
| PerformerPage.TabName | ui/v2.5/src/components/Performers/PerformerDetails/Performer.tsx:59-67 | every tab key names a member of `validTabs` |
| PerformerPage.IsTabKey | ui/v2.5/src/components/Performers/PerformerDetails/Performer.tsx:71-73 | a string is a tab key exactly when it is the name of one of the six tabs |
| PerformerPage.ParseTab | ui/v2.5/src/components/Performers/PerformerDetails/Performer.tsx:71-73 | a parsed tab has the given name; a string that parses to nothing is not in `validTabs` |
| PerformerPage.ParseTabName | ui/v2.5/src/components/Performers/PerformerDetails/Performer.tsx:59-67 | parsing a tab's name gives the tab back; distinct tabs have distinct names |
| PerformerPage.PopulatedDefaultTab | ui/v2.5/src/components/Performers/PerformerDetails/Performer.tsx:121-134 | one of scenes/galleries/images/movies; the highest-priority tab with a non-zero count, or scenes when all four are zero |
| PerformerPage.EffectiveTab | ui/v2.5/src/components/Performers/PerformerDetails/Performer.tsx:136-138 | never "default"; "default" becomes the populated default tab; a requested non-default tab is kept |
| PerformerPage.Loader | ui/v2.5/src/components/Performers/PerformerDetails/Performer.tsx:619-639 | loading, then error, then not found; missing tab renders "default", an unknown tab redirects to the canonical route, a valid tab renders that tab |
| PerformerPage.LoaderSettles | ui/v2.5/src/components/Performers/PerformerDetails/Performer.tsx:624-639 | once the performer is found the loader renders a page, or redirects to a route that renders one |
| PerformerPage.NormalizedKey | ui/v2.5/src/components/Performers/PerformerDetails/Performer.tsx:141 | null, "" and "default" become the populated default's name; any other key is kept; the result is never "" or "default" |
| PerformerPage.TabNavigation | ui/v2.5/src/components/Performers/PerformerDetails/Performer.tsx:140-149 | a navigation goes to this performer; it is the canonical route exactly when the normalised key is the populated default, and otherwise carries the normalised key, which is a valid tab |
| PerformerPage.TabNavigationWhen | ui/v2.5/src/components/Performers/PerformerDetails/Performer.tsx:140-149 | `setTabKey` navigates exactly when the normalised key names a valid tab other than the current one |
| PerformerPage.TabNavigationLands | ui/v2.5/src/components/Performers/PerformerDetails/Performer.tsx:140-149 | every navigation goes to a route of this performer that the loader renders with the requested tab in effect; the canonical route is used exactly for the populated default, and any other route carries the normalised key |
| PerformerPage.SelectingCurrentTabIsNoOp | ui/v2.5/src/components/Performers/PerformerDetails/Performer.tsx:136-142 | selecting the tab already shown, or "default"/null while on the populated default, does not navigate |
| PerformerPage.ActiveImage | ui/v2.5/src/components/Performers/PerformerDetails/Performer.tsx:95-107 | not editing: the performer's image; editing with a non-empty staged image: that image; editing with the image removed and a non-empty performer image: that image marked as default; in every other case the performer's image |
| PerformerPage.PerformerView.constructor | ui/v2.5/src/components/Performers/PerformerDetails/Performer.tsx:89-91 | collapsed unless all details are shown (default shown), not editing, nothing staged; the tab in effect is `EffectiveTab` |
| PerformerPage.PerformerView.SetTabKey | ui/v2.5/src/components/Performers/PerformerDetails/Performer.tsx:140-149 | appends `history.replace` of the route `TabNavigation` chooses, or nothing |
| PerformerPage.PerformerView.ToggleEditing | ui/v2.5/src/components/Performers/PerformerDetails/Performer.tsx:214-221 | the edit flag becomes the given value or flips; the staged image is dropped, so the page shows the performer's own image; nothing else changes |
| PerformerPage.PerformerView.SetImage | ui/v2.5/src/components/Performers/PerformerDetails/Performer.tsx:91 | the edit panel stages an image (or removes it) |
| PerformerPage.PerformerView.ToggleCollapsed | ui/v2.5/src/components/Performers/PerformerDetails/Performer.tsx:469 | the collapsed flag flips |
| PerformerPage.PerformerView.OnDelete | ui/v2.5/src/components/Performers/PerformerDetails/Performer.tsx:203-212 | always pushes "/performers"; a failed delete also raises an error toast |
| PerformerPage.PerformerView.OnSave | ui/v2.5/src/components/Performers/PerformerDetails/Performer.tsx:185-201 | after a successful update: leaves edit mode, drops the staged image, raises a success toast; a failed update changes nothing |

## Left out

- Rendering: JSX, style objects, icons, the "Options Hidden" markup, and the internals of the dropdown, creatable dropdown and bootstrap components, whose behaviour is not part of this model.
- `GallerySelect`, `SceneSelect`, `ImageSelect` (Select.tsx:336-485): debounced, network-backed search; `useDebounce` is not part of this model. Their `onChange` projection `{id: value, title: label}` is a plain map like those modelled.
- `PerformerSelect`, `StudioSelect`, `TagSelect`, `FilterSelect` (Select.tsx:529-602): wrappers around components that are not part of this model. `MovieSelect` (Select.tsx:539-584) issues a network mutation; its creation result enters the model as the `CreateOutcome` of `FilterSelectComponent.OnCreate`.
- `StringListSelect` and `ListSelect` (Select.tsx:609-705): disabled displays that only map strings or values to options.
- `CheckBoxSelect` (Select.tsx:717-793): forwards the dropdown's `onChange` unchanged and adds no logic of its own beyond rendering.
- LimitChildren: requires a cap of at least 1; with a cap of 0 the code's `slice(0, -1)` means "all but the last", and negative slice indices are not modelled.
- The value of `defaultMaxOptionsShown` lives in `src/core/config`, which is not part of this model; it is a parameter of `LimitedSelectMenu.constructor`.
- `FilterSelectComponent.OnCreate` runs the asynchronous creation as one step: the renders between `setLoading(true)` and the awaited result are not modelled. The success toast's JSX is modelled as the string `message + ": " + name`.
- ActiveImage: rewriting the URL's search parameters with `new URL(...)` is the parameter `markDefault`, not modelled.
- Hotkeys (Mousetrap bind/unbind, rating keybinds), `setFavorite`, `setRating`, `onAutoTag`, the lightbox, the page title, the sticky header, the background image and the "deleting" indicator: global side effects and fire-and-forget network calls.
- The extraction of bracketed URLs from the performer's details (Performer.tsx:481-482): JavaScript regular-expression semantics, marked in the code as temporary.
- Loader: the redirect keeps the rest of the current location (search and hash); the model keeps only the route.
- `ui/v2.5/src/models/list-filter/scenes.ts`: a static configuration table built from factories that are not part of this model.
