/** The generic entity select widget of ui/v2.5/src/components/Shared/Select.tsx:
    normalising the selection reported by the dropdown, the option cap with a
    pinned "Create" entry, the initial values of `SelectComponent`, the option
    projection and selection reporting of `FilterSelectComponent`, and the
    item padding of `MarkerTitleSuggest`. The dropdown library itself and the
    rendering are outside the model. */
module Select {
  import opened Common

  /** The `{value, label}` pair handed to the dropdown. */
  datatype SelectOption = SelectOption(value: string, caption: string)

  /** What the dropdown reports or is given as its value (`OnChangeValue`):
      null or undefined, a single option, or an array of options. */
  datatype ChangeValue = NoValue | One(option: SelectOption) | Many(options: seq<SelectOption>)

  /** An entity as the filter selects see it; `name` and `title` are nullable. */
  datatype SelectObject = SelectObject(id: string, name: Option<string>, title: Option<string>)

  // ---------------------------------------------------------------------------
  // Normalising a selection
  // ---------------------------------------------------------------------------

  /** `getSelectedItems`: an array is kept, a single option (always a truthy
      object) becomes a one-element list, null or undefined the empty list. */
  function SelectedItems(v: ChangeValue): (r: seq<SelectOption>)
    ensures v.Many? ==> r == v.options
    ensures v.One? ==> r == [v.option]
    ensures v.NoValue? <==> r == [] && !v.Many?
  {
    match v
    case NoValue => []
    case One(o) => [o]
    case Many(os) => os
  }

  /** `getSelectedValues`: the `value` of each selected option, position by position. */
  function SelectedValues(v: ChangeValue): (r: seq<string>)
    ensures |r| == |SelectedItems(v)|
    ensures forall i :: 0 <= i < |r| ==> r[i] == SelectedItems(v)[i].value
  {
    Map(SelectedItems(v), (o: SelectOption) => o.value)
  }

  /** The value handed to the dropdown for a list of chosen options
      (`isMulti ? values : values[0] ?? null`). */
  function Present(isMulti: bool, chosen: seq<SelectOption>): (v: ChangeValue)
    ensures isMulti ==> v == Many(chosen)
    ensures !isMulti && chosen == [] ==> v == NoValue
    ensures !isMulti && chosen != [] ==> v == One(chosen[0])
  {
    if isMulti then Many(chosen)
    else if chosen == [] then NoValue
    else One(chosen[0])
  }

  /** Reading a presented value back gives the chosen options in multi mode
      and at most the first of them in single mode. */
  lemma SelectedItemsOfPresent(isMulti: bool, chosen: seq<SelectOption>)
    ensures isMulti ==> SelectedItems(Present(isMulti, chosen)) == chosen
    ensures !isMulti ==> SelectedItems(Present(isMulti, chosen)) == chosen[..Min(|chosen|, 1)]
  {
  }

  // ---------------------------------------------------------------------------
  // LimitedSelectMenu: the option cap with a pinned creation entry
  // ---------------------------------------------------------------------------

  /** The menu's children: an array of option nodes, or any other node. */
  datatype MenuChildren<T> = Node(node: T) | Nodes(children: seq<T>)

  /** What the menu renders, and the count written to `hiddenCount`. */
  datatype MenuView<T> = MenuView(shown: MenuChildren<T>, hidden: int)

  /** The body of the memo in `LimitedSelectMenu`. `isNew` is the
      `props.data.__isNew__` flag of the dropdown's creation entry. */
  function LimitChildren<T>(c: MenuChildren<T>, isNew: T -> bool, max: int): (r: MenuView<T>)
    requires max >= 1
    ensures c.Node? ==> r == MenuView(c, 0)
    ensures c.Nodes? ==> r.shown.Nodes? && |r.shown.children| == Min(|c.children|, max)
    ensures r.hidden >= 0
  {
    match c
    case Node(_) => MenuView(c, 0)
    case Nodes(children) =>
      var k := FindIndex(children, isNew);
      if k >= max then
        MenuView(Nodes(children[..max - 1] + [children[k]]), |children| - max - 1)
      else
        MenuView(Nodes(children[..Min(|children|, max)]), Max(|children| - max, 0))
  }

  /** Without a creation entry beyond the cap, the menu shows the first
      `min(len, max)` children and reports exactly the number it leaves out;
      a creation entry, if any, is shown at its own position. */
  lemma LimitKeepsPrefix<T>(children: seq<T>, isNew: T -> bool, max: int)
    requires max >= 1
    requires FindIndex(children, isNew) < max
    ensures var r := LimitChildren(Nodes(children), isNew, max);
      && r.shown.children == children[..Min(|children|, max)]
      && r.hidden == Max(|children| - max, 0)
      && r.hidden == |children| - |r.shown.children|
      && (FindIndex(children, isNew) >= 0 ==>
            r.shown.children[FindIndex(children, isNew)] == children[FindIndex(children, isNew)])
  {
  }

  /** With the first creation entry at index `k >= max`, the menu shows the
      first `max - 1` children followed by that entry: exactly `max` nodes,
      the last of which is the creation entry. The count it reports is
      `len - max - 1`, one less than the `len - max` children it leaves out. */
  lemma LimitPinsCreation<T>(children: seq<T>, isNew: T -> bool, max: int)
    requires max >= 1
    requires FindIndex(children, isNew) >= max
    ensures var k := FindIndex(children, isNew);
      var r := LimitChildren(Nodes(children), isNew, max);
      && r.shown.children == children[..max - 1] + [children[k]]
      && |r.shown.children| == max
      && isNew(r.shown.children[max - 1])
      && |children| - |r.shown.children| == |children| - max
      && r.hidden == |children| - |r.shown.children| - 1
  {
  }

  /** The reported count equals the number of children left out exactly when
      no creation entry had to be pinned. */
  lemma HiddenExactUnlessPinned<T>(children: seq<T>, isNew: T -> bool, max: int)
    requires max >= 1
    ensures var r := LimitChildren(Nodes(children), isNew, max);
      r.hidden == |children| - |r.shown.children| <==> FindIndex(children, isNew) < max
  {
  }

  /** When the pinned creation entry leaves out exactly one child, the menu
      reports zero hidden options, so the "Options Hidden" notice is not shown. */
  lemma PinnedSingleOmissionUnreported<T>(children: seq<T>, isNew: T -> bool, max: int)
    requires max >= 1
    requires FindIndex(children, isNew) >= max
    requires |children| == max + 1
    ensures LimitChildren(Nodes(children), isNew, max).hidden == 0
    ensures |children| - |LimitChildren(Nodes(children), isNew, max).shown.children| == 1
  {
  }

  /** The menu never reorders: what it shows is a subsequence of the
      children, and the first creation entry, if any, is always among it. */
  lemma {:induction false} LimitKeepsOrderAndCreation<T>(children: seq<T>, isNew: T -> bool, max: int)
    requires max >= 1
    ensures var r := LimitChildren(Nodes(children), isNew, max);
      && IsSubsequence(r.shown.children, children)
      && (FindIndex(children, isNew) >= 0 ==> children[FindIndex(children, isNew)] in r.shown.children)
  {
    var k := FindIndex(children, isNew);
    if k >= max {
      PrefixThenLaterIsSubsequence(children, max - 1, k);
    } else {
      PrefixIsSubsequence(children, Min(|children|, max));
      if k >= 0 {
        assert children[..Min(|children|, max)][k] == children[k];
      }
    }
  }

  /** The menu component: `hiddenCount` is the state written inside the memo. */
  class LimitedSelectMenu {
    const maxOptionsShown: int
    var hiddenCount: int

    /** `configuration?.ui.maxOptionsShown ?? defaultMaxOptionsShown`. */
    constructor (configured: Option<int>, defaultMax: int)
      requires (if configured.Some? then configured.value else defaultMax) >= 1
      ensures maxOptionsShown == (if configured.Some? then configured.value else defaultMax)
      ensures hiddenCount == 0
    {
      maxOptionsShown := if configured.Some? then configured.value else defaultMax;
      hiddenCount := 0;
    }

    /** Computes the children to render and records the hidden count. */
    method RenderChildren<T>(children: MenuChildren<T>, isNew: T -> bool) returns (shown: MenuChildren<T>)
      requires maxOptionsShown >= 1
      modifies this`hiddenCount
      ensures MenuView(shown, hiddenCount) == LimitChildren(children, isNew, maxOptionsShown)
      ensures ShowsHiddenNotice() <==>
        && children.Nodes?
        && |children.children| > maxOptionsShown
             + (if FindIndex(children.children, isNew) >= maxOptionsShown then 1 else 0)
    {
      if children.Nodes? {
        var nodes := children.children;
        var creationOptionIndex := FindIndex(nodes, isNew);
        if creationOptionIndex >= maxOptionsShown {
          hiddenCount := |nodes| - maxOptionsShown - 1;
          shown := Nodes(nodes[..maxOptionsShown - 1] + [nodes[creationOptionIndex]]);
          return;
        } else {
          hiddenCount := Max(|nodes| - maxOptionsShown, 0);
          shown := Nodes(nodes[..Min(|nodes|, maxOptionsShown)]);
          return;
        }
      }
      hiddenCount := 0;
      shown := children;
    }

    /** `hiddenCount > 0 && <div>…Options Hidden</div>`. */
    predicate ShowsHiddenNotice()
      reads this
    {
      hiddenCount > 0
    }
  }

  // ---------------------------------------------------------------------------
  // SelectComponent: initial values
  // ---------------------------------------------------------------------------

  /** `items.filter((item) => initialIds?.indexOf(item.value) !== -1)`. With
      `initialIds` undefined the optional chain yields undefined, which is not
      -1, so every item passes. */
  function InitialValues(items: seq<SelectOption>, initialIds: Option<seq<string>>): (r: seq<SelectOption>)
    ensures forall i :: 0 <= i < |r| ==> r[i] in items && (initialIds.Some? ==> r[i].value in initialIds.value)
    ensures forall i :: 0 <= i < |items| && (initialIds.Some? ==> items[i].value in initialIds.value) ==> items[i] in r
    ensures forall i :: 0 <= i < |items| && IsInitial(items[i], initialIds) ==>
      multiset(r)[items[i]] == multiset(items)[items[i]]
    ensures IsSubsequence(r, items)
    ensures initialIds.None? ==> r == items
  {
    var keep := (o: SelectOption) => IsInitial(o, initialIds);
    assert initialIds.None? ==> Filter(items, keep) == items by {
      if initialIds.None? { FilterKeepsAll(items, keep); }
    }
    Filter(items, keep)
  }

  /** Whether an item is among the initial values (see `InitialValues`). */
  predicate IsInitial(o: SelectOption, initialIds: Option<seq<string>>)
  {
    initialIds.None? || o.value in initialIds.value
  }

  /** `defaultValue`: all initial values in multi mode; in single mode the
      first item that is an initial value, or null when there is none. */
  function DefaultValue(isMulti: bool, items: seq<SelectOption>, initialIds: Option<seq<string>>): (v: ChangeValue)
    ensures isMulti ==> v == Many(InitialValues(items, initialIds))
    ensures !isMulti ==> !v.Many?
    ensures !isMulti ==> (v.One? <==> exists i :: 0 <= i < |items| && IsInitial(items[i], initialIds))
    ensures !isMulti && v.One? ==>
      exists k :: (&& 0 <= k < |items| && items[k] == v.option && IsInitial(items[k], initialIds)
                   && forall i :: 0 <= i < k ==> !IsInitial(items[i], initialIds))
  {
    FilterHead(items, (o: SelectOption) => IsInitial(o, initialIds));
    Present(isMulti, InitialValues(items, initialIds))
  }

  // ---------------------------------------------------------------------------
  // FilterSelectComponent
  // ---------------------------------------------------------------------------

  /** The option of an item when no `toOption` is supplied:
      `{value: i.id, label: i.name ?? i.title ?? ""}`. */
  function DefaultOption(i: SelectObject): (o: SelectOption)
    ensures o.value == i.id
    ensures i.name.Some? ==> o.caption == i.name.value
    ensures i.name.None? && i.title.Some? ==> o.caption == i.title.value
    ensures i.name.None? && i.title.None? ==> o.caption == ""
  {
    SelectOption(i.id, if i.name.Some? then i.name.value else if i.title.Some? then i.title.value else "")
  }

  /** `items.map(...)`: `toOption(item)` when supplied, else `DefaultOption(item)`. */
  function ItemOptions(items: seq<SelectObject>, toOption: Option<SelectObject -> SelectOption>): (r: seq<SelectOption>)
    ensures |r| == |items|
    ensures forall i :: 0 <= i < |items| ==>
      r[i] == (if toOption.Some? then toOption.value(items[i]) else DefaultOption(items[i]))
  {
    Map(items, (i: SelectObject) => if toOption.Some? then toOption.value(i) else DefaultOption(i))
  }

  /** The test `option => ids.includes(option.value)`. */
  function HasValueIn(ids: seq<string>): SelectOption -> bool
  {
    (o: SelectOption) => o.value in ids
  }

  /** The test `item => ids.includes(item.id)`. */
  function HasIdIn(ids: seq<string>): SelectObject -> bool
  {
    (i: SelectObject) => i.id in ids
  }

  /** The options shown as selected: those whose value is one of `selectedIds`. */
  function SelectedOptions(options: seq<SelectOption>, selectedIds: seq<string>): (r: seq<SelectOption>)
    ensures forall i :: 0 <= i < |r| ==> r[i] in options && r[i].value in selectedIds
    ensures forall i :: 0 <= i < |options| && options[i].value in selectedIds ==> options[i] in r
    ensures forall i :: 0 <= i < |options| && options[i].value in selectedIds ==>
      multiset(r)[options[i]] == multiset(options)[options[i]]
    ensures IsSubsequence(r, options)
  {
    Filter(options, HasValueIn(selectedIds))
  }

  /** The items whose id is one of `ids`, in `items` order. */
  function ItemsWithIds(items: seq<SelectObject>, ids: seq<string>): (r: seq<SelectObject>)
    ensures forall i :: 0 <= i < |r| ==> r[i] in items && r[i].id in ids
    ensures forall i :: 0 <= i < |items| && items[i].id in ids ==> items[i] in r
    ensures forall i :: 0 <= i < |items| && items[i].id in ids ==>
      multiset(r)[items[i]] == multiset(items)[items[i]]
    ensures IsSubsequence(r, items)
  {
    Filter(items, HasIdIn(ids))
  }

  /** `onChange`: the items whose id is among the values the dropdown reports. */
  function OnChangeSelection(items: seq<SelectObject>, v: ChangeValue): (r: seq<SelectObject>)
    ensures forall i :: 0 <= i < |r| ==> r[i] in items && exists j :: 0 <= j < |SelectedItems(v)| && SelectedItems(v)[j].value == r[i].id
    ensures forall i, j :: 0 <= i < |items| && 0 <= j < |SelectedItems(v)| && SelectedItems(v)[j].value == items[i].id ==> items[i] in r
    ensures forall i :: 0 <= i < |items| && items[i].id in SelectedValues(v) ==>
      multiset(r)[items[i]] == multiset(items)[items[i]]
    ensures IsSubsequence(r, items)
  {
    var values := SelectedValues(v);
    ItemsWithIds(items, values)
  }

  /** With the default projection, the options shown as selected are exactly
      the options of the selected items. */
  lemma SelectedOptionsAreOptionsOfSelectedItems(items: seq<SelectObject>, selectedIds: seq<string>)
    ensures SelectedOptions(ItemOptions(items, None), selectedIds)
         == Map(ItemsWithIds(items, selectedIds), DefaultOption)
  {
    assert ItemOptions(items, None) == Map(items, DefaultOption);
    MapFilterCommute(items, DefaultOption, HasIdIn(selectedIds), HasValueIn(selectedIds));
  }

  /** When the dropdown hands back the multi-select value it was given, the
      component reports the same items as currently selected. */
  lemma OnChangeEchoesSelection(items: seq<SelectObject>, selectedIds: seq<string>)
    ensures OnChangeSelection(items, Present(true, SelectedOptions(ItemOptions(items, None), selectedIds)))
         == ItemsWithIds(items, selectedIds)
  {
    var sel := ItemsWithIds(items, selectedIds);
    var values := SelectedValues(Present(true, SelectedOptions(ItemOptions(items, None), selectedIds)));
    SelectedOptionsAreOptionsOfSelectedItems(items, selectedIds);
    ValuesOfDefaultOptions(sel);
    forall i | 0 <= i < |items|
      ensures HasIdIn(values)(items[i]) == HasIdIn(selectedIds)(items[i])
    {
      IdInValues(sel, values, items[i].id);
      if items[i].id in selectedIds {
        assert items[i] in sel;
      }
    }
    FilterAgrees(items, HasIdIn(values), HasIdIn(selectedIds));
  }

  /** The values of the default options of some items are their ids. */
  lemma ValuesOfDefaultOptions(sel: seq<SelectObject>)
    ensures var values := SelectedValues(Many(Map(sel, DefaultOption)));
      |values| == |sel| && forall j :: 0 <= j < |sel| ==> values[j] == sel[j].id
  {
  }

  /** A string is among the ids of `sel` exactly when some element has it as id. */
  lemma IdInValues(sel: seq<SelectObject>, values: seq<string>, id: string)
    requires |values| == |sel| && forall j :: 0 <= j < |sel| ==> values[j] == sel[j].id
    ensures id in values <==> exists j :: 0 <= j < |sel| && sel[j].id == id
  {
  }

  /** The outcome of the `onCreate` callback the component is given. */
  datatype CreateOutcome = Created(item: SelectObject, message: string) | Rejected(error: string)

  /** The component's own state and the calls it makes to its parent. */
  class FilterSelectComponent {
    const items: seq<SelectObject>
    const selectedIds: seq<string>
    const hasOnSelect: bool
    var loading: bool
    /** The arguments of every `onSelect` call so far. */
    var reported: seq<seq<SelectObject>>
    var toasts: seq<Toast>

    /** `selectedIds = ids ?? []`; `loading` starts false. */
    constructor (items: seq<SelectObject>, ids: Option<seq<string>>, hasOnSelect: bool)
      ensures this.items == items && this.hasOnSelect == hasOnSelect
      ensures selectedIds == (if ids.Some? then ids.value else [])
      ensures !loading && reported == [] && toasts == []
      ensures forall propLoading :: IsLoading(propLoading) == propLoading
    {
      this.items := items;
      this.selectedIds := if ids.Some? then ids.value else [];
      this.hasOnSelect := hasOnSelect;
      loading := false;
      reported := [];
      toasts := [];
    }

    /** `isLoading || loading`, passed on as the widget's loading flag. */
    predicate IsLoading(propLoading: bool)
      reads this
    {
      propLoading || loading
    }

    /** The creatable dropdown is disabled while loading (`isLoading || isDisabled`). */
    predicate CreatableDisabled(propLoading: bool, isDisabled: bool)
      reads this
    {
      IsLoading(propLoading) || isDisabled
    }

    /** `onChange`: report the items whose id the dropdown now holds. */
    method OnChange(v: ChangeValue)
      modifies this`reported
      ensures reported == old(reported) + (if hasOnSelect then [OnChangeSelection(items, v)] else [])
    {
      if hasOnSelect {
        reported := reported + [OnChangeSelection(items, v)];
      }
    }

    /** `onCreate`: set `loading`, await the creation, then report the
        current selection followed by the new item and clear `loading`.
        A rejected creation raises an error toast, reports nothing and
        leaves `loading` set, which keeps the creatable dropdown disabled. */
    method OnCreate(name: string, outcome: CreateOutcome)
      modifies this`loading, this`reported, this`toasts
      ensures outcome.Created? ==>
        && !loading
        && reported == old(reported) + (if hasOnSelect then [ItemsWithIds(items, selectedIds) + [outcome.item]] else [])
        && toasts == old(toasts) + [ToastSuccess(outcome.message + ": " + name)]
        && forall propLoading, isDisabled :: CreatableDisabled(propLoading, isDisabled) == (propLoading || isDisabled)
      ensures outcome.Rejected? ==>
        && loading
        && reported == old(reported)
        && toasts == old(toasts) + [ToastError(outcome.error)]
        && forall propLoading, isDisabled :: CreatableDisabled(propLoading, isDisabled)
    {
      loading := true;
      match outcome {
        case Created(newItem, message) =>
          if hasOnSelect {
            reported := reported + [ItemsWithIds(items, selectedIds) + [newItem]];
          }
          loading := false;
          toasts := toasts + [ToastSuccess(message + ": " + name)];
        case Rejected(e) =>
          toasts := toasts + [ToastError(e)];
      }
    }
  }

  /** After a successful creation the reported selection keeps every
      currently selected item, in `items` order, and ends with the new one. */
  lemma CreatedSelectionExtendsCurrent(items: seq<SelectObject>, selectedIds: seq<string>, newItem: SelectObject)
    ensures var r := ItemsWithIds(items, selectedIds) + [newItem];
      && |r| >= 1 && r[|r| - 1] == newItem
      && r[..|r| - 1] == ItemsWithIds(items, selectedIds)
      && forall i :: 0 <= i < |items| && items[i].id in selectedIds ==> items[i] in r
  {
  }

  // ---------------------------------------------------------------------------
  // MarkerTitleSuggest
  // ---------------------------------------------------------------------------

  /** `{label: item?.title ?? "", value: item?.title ?? ""}` for a marker
      string whose title (or which itself) may be null. */
  function SuggestionOption(title: Option<string>): (o: SelectOption)
    ensures o.caption == o.value
    ensures o.value == (if title.Some? then title.value else "")
  {
    var t := if title.Some? then title.value else ""; SelectOption(t, t)
  }

  /** `selectedItem?.value ?? ""` for the single-mode marker title select. */
  function MarkerTitleOf(v: ChangeValue): (title: string)
    requires !v.Many?
    ensures v.One? ==> title == v.option.value
    ensures v.NoValue? ==> title == ""
  {
    if v.One? then v.option.value else ""
  }

  /** The items and initial ids of `MarkerTitleSuggest`. While the
      suggestions are still loading, the initial title is appended to the
      items so that the existing value is populated. */
  method MarkerItems(suggestions: seq<Option<string>>, initialTitle: Option<string>, loading: bool)
    returns (items: seq<SelectOption>, initialIds: seq<string>)
    ensures initialIds == (if initialTitle.Some? && initialTitle.value != "" then [initialTitle.value] else [])
    ensures |items| == |suggestions| + (if loading && initialIds != [] then 1 else 0)
    ensures forall i :: 0 <= i < |suggestions| ==> items[i] == SuggestionOption(suggestions[i])
    ensures loading && initialIds != [] ==> items[|suggestions|] == SelectOption(initialIds[0], initialIds[0])
    ensures loading && initialIds != [] ==>
      MarkerTitleOf(DefaultValue(false, items, Some(initialIds))) == initialIds[0]
    ensures initialIds == [] ==> DefaultValue(false, items, Some(initialIds)) == NoValue
  {
    items := Map(suggestions, SuggestionOption);
    initialIds := if initialTitle.Some? && initialTitle.value != "" then [initialTitle.value] else [];
    if loading && |initialIds| > 0 {
      items := items + [SelectOption(initialIds[0], initialIds[0])];
      assert IsInitial(items[|suggestions|], Some(initialIds));
    }
  }
}
