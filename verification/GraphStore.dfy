/** The in-memory store behind the blackboard graph: its operations, the timers that some of them leave
    behind, and runs of both. */
module GraphStore {
  import opened Refs
  import opened Sequences
  import opened GraphModel
  import opened GraphApi

  const NO_MODEL := Model([], [], [])

  /** `pending` holds the blackboards that timers are going to put in place, the next one first. */
  datatype Store = Store(blackboard: Model, depi: Model, pending: seq<Model>)

  datatype Event =
    | LinkResources(source: Resource, target: Resource)
    | ClearBlackboard
    | Timer
    | SaveBlackboard
    | RemoveFromBlackboard(selected: seq<Entry>)
    | DeleteFromDepi(selected: seq<Entry>)
    | EditResourceGroup(toolId: string, url: string, desc: Group, remove: bool)

  /** The source is linked to itself, which the check for known links takes for a match. */
  predicate Stopped(m: Model, source: Resource) { ListsLink(m.links, LinkKey(source.ref, source.ref)) }

  /** What a removal takes out: the selection with its loose links, or, if an entry is missing, the
      entries before that one. */
  function TakenFromBlackboard(m: Model, selected: seq<Entry>): seq<Entry> {
    if RemovalEntries(m, selected).Ok? then RemovalEntries(m, selected).value else PresentPrefix(m, selected)
  }

  function Edited(m: Model, toolId: string, url: string, desc: Group, remove: bool): Model {
    if remove then GroupRemoved(m, toolId, url) else GroupRenamed(m, toolId, url, desc)
  }

  ghost predicate Step(s: Store, e: Event, s': Store) {
    match e
    case LinkResources(source, target) =>
      s' == if Stopped(s.blackboard, source) then s
            else s.(pending := s.pending + [Linked(s.blackboard, source, target)])
    case ClearBlackboard => s' == s.(pending := s.pending + [NO_MODEL])
    case Timer => s.pending != [] && s' == s.(blackboard := s.pending[0], pending := s.pending[1..])
    case SaveBlackboard => s' == s.(depi := Saved(s.depi, s.blackboard), blackboard := NO_MODEL)
    case RemoveFromBlackboard(selected) =>
      && IsTaken(s.blackboard, s'.blackboard, TakenFromBlackboard(s.blackboard, selected))
      && s'.blackboard.groups == s.blackboard.groups && s'.depi == s.depi && s'.pending == s.pending
    case DeleteFromDepi(selected) =>
      if DeletionEntries(s.depi, selected).Err? then s' == s else
      && IsTaken(s.depi, s'.depi, DeletionEntries(s.depi, selected).value)
      && s'.depi.groups == s.depi.groups && s'.blackboard == s.blackboard && s'.pending == s.pending
    case EditResourceGroup(toolId, url, desc, remove) =>
      s' == s.(depi := Edited(s.depi, toolId, url, desc, remove))
  }

  // ----- The store as it is coded -----

  class DepiApi {
    var blackboardModel: Model
    var depiModel: Model
    var pending: seq<Model>

    constructor (blackboard: Model, depi: Model)
      ensures Now() == Store(blackboard, depi, [])
    {
      blackboardModel, depiModel, pending := blackboard, depi, [];
    }

    function Now(): Store
      reads this
    {
      Store(blackboardModel, depiModel, pending)
    }

    method LinkResources(source: Resource, target: Resource)
      modifies this`pending
      ensures Step(old(Now()), Event.LinkResources(source, target), Now())
    {
      for i := 0 to |blackboardModel.links|
        invariant forall j :: 0 <= j < i ==>
                    blackboardModel.links[j].Key() != LinkKey(source.ref, source.ref)
      {
        if blackboardModel.links[i].source.ref == source.ref && blackboardModel.links[i].target.ref == source.ref {
          return;
        }
      }
      var links := blackboardModel.links + [Link(source, target, false)];
      var hasSource, hasTarget := false, false;
      for i := 0 to |blackboardModel.resources|
        invariant hasSource <==> exists j :: 0 <= j < i && blackboardModel.resources[j].ref == source.ref
        invariant hasTarget <==>
                    exists j :: 0 <= j < i && blackboardModel.resources[j].ref == target.ref != source.ref
      {
        var resource := blackboardModel.resources[i];
        if resource.ref == source.ref {
          hasSource := true;
        } else if resource.ref == target.ref {
          hasTarget := true;
        }
      }
      var resources := blackboardModel.resources;
      if !hasSource {
        resources := resources + [source];
      }
      if !hasTarget {
        resources := resources + [target];
      }
      var linked := blackboardModel.(resources := resources, links := links);
      assert linked == Linked(blackboardModel, source, target);
      pending := pending + [linked];
    }

    method ClearBlackboard()
      modifies this`pending
      ensures Step(old(Now()), Event.ClearBlackboard, Now())
    {
      pending := pending + [NO_MODEL];
    }

    method RunTimer()
      requires pending != []
      modifies this`blackboardModel, this`pending
      ensures Step(old(Now()), Timer, Now())
    {
      blackboardModel, pending := pending[0], pending[1..];
    }

    method SaveBlackboard()
      modifies this`blackboardModel, this`depiModel
      ensures Step(old(Now()), Event.SaveBlackboard, Now())
    {
      ghost var before := depiModel;
      var resources, links := blackboardModel.resources, blackboardModel.links;
      for i := 0 to |resources|
        invariant depiModel.links == before.links && unchanged(`blackboardModel)
        invariant WithResources(depiModel, resources[i..]) == WithResources(before, resources)
      {
        assert resources[i..][1..] == resources[i + 1..];
        depiModel := WithResource(depiModel, resources[i]);
      }
      depiModel := depiModel.(links := depiModel.links + links);
      blackboardModel := NO_MODEL;
    }

    /** Looking up the selection does not fail on a missing entry. Taking it out does, once the entries
        before it are gone. */
    method RemoveFromBlackboard(selected: seq<Entry>) returns (error: Option<ApiError>)
      modifies this`blackboardModel
      ensures error.Some? <==> exists e :: e in selected && !Present(old(blackboardModel), e)
      ensures Step(old(Now()), Event.RemoveFromBlackboard(selected), Now())
    {
      AllPresent(blackboardModel, selected);
      var entries := LookUpAll(blackboardModel, selected);
      var found, missing := UpToMissing(entries);
      FoundAreTaken(blackboardModel, selected);
      var resources, links := RemoveEntriesByMutation(blackboardModel.resources, blackboardModel.links, found);
      blackboardModel := blackboardModel.(resources := resources, links := links);
      error := if missing.Some? then Some(NotInModel(selected[missing.value])) else None;
    }

    method DeleteFromDepi(selected: seq<Entry>) returns (error: Option<ApiError>)
      modifies this`depiModel
      ensures error.Some? <==> DeletionEntries(old(depiModel), selected).Err?
      ensures Step(old(Now()), Event.DeleteFromDepi(selected), Now())
    {
      var refs := ExpandAll(depiModel, selected);
      if refs.Err? {
        return Some(refs.error);
      }
      var loose := GetAdditionalLooseLinks(depiModel.links, ResourceEntries(refs.value), LinkEntries(refs.value));
      var looseRefs := ExpandAll(depiModel, AsEntries(loose));
      if looseRefs.Err? {
        return Some(looseRefs.error);
      }
      var resources, links :=
        RemoveEntriesByMutation(depiModel.resources, depiModel.links, refs.value + looseRefs.value);
      depiModel := depiModel.(resources := resources, links := links);
      return None;
    }

    method EditResourceGroup(toolId: string, url: string, desc: Group, remove: bool)
      modifies this`depiModel
      ensures Step(old(Now()), Event.EditResourceGroup(toolId, url, desc, remove), Now())
    {
      if remove {
        var groups := GroupsWithout(depiModel.groups, toolId, url);
        var resources := ResourcesWithout(depiModel.resources, toolId, url);
        var links := LinksWithout(depiModel.links, toolId, url);
        depiModel := Model(groups, resources, links);
      } else {
        var groups := GroupsRenamed(depiModel.groups, toolId, url, desc);
        var resources := ResourcesMoved(depiModel.resources, toolId, url, desc);
        var links := LinksMoved(depiModel.links, toolId, url, desc);
        depiModel := Model(groups, resources, links);
      }
    }
  }

  // ----- Looking up a selection on the blackboard -----

  /** An entry that is found, or nothing. */
  function LookedUp(m: Model, e: Entry): Option<Entry> { if Present(m, e) then Some(e) else None }

  method LookUp(m: Model, e: Entry) returns (found: Option<Entry>)
    ensures found == LookedUp(m, e)
  {
    match e
    case LinkEntry(key) =>
      var idx := FindLink(m.links, key);
      return if idx >= 0 then Some(e) else None;
    case ResourceEntry(ref) =>
      var idx := FindResource(m.resources, ref);
      return if idx >= 0 then Some(e) else None;
  }

  function AsFound(entries: seq<Entry>): seq<Option<Entry>> {
    seq(|entries|, i requires 0 <= i < |entries| => Some(entries[i]))
  }

  /** What the selection and its loose links come to, entry by entry. A missing entry has no loose
      links. */
  ghost predicate IsLookUp(m: Model, selected: seq<Entry>, entries: seq<Option<Entry>>) {
    && |selected| <= |entries|
    && (forall i :: 0 <= i < |selected| ==> entries[i] == LookedUp(m, selected[i]))
    && (FirstMissing(m, selected).None? ==> entries == AsFound(WithLoose(m, selected)))
  }

  method LookUpAll(m: Model, selected: seq<Entry>) returns (entries: seq<Option<Entry>>)
    ensures IsLookUp(m, selected, entries)
  {
    entries := [];
    var removedResources: seq<ResourceRef>, removedLinks: seq<LinkKey> := [], [];
    for i := 0 to |selected|
      invariant |entries| == i && forall j :: 0 <= j < i ==> entries[j] == LookedUp(m, selected[j])
      invariant (forall j :: 0 <= j < i ==> Present(m, selected[j])) ==>
                  removedResources == ResourceEntries(selected[..i]) && removedLinks == LinkEntries(selected[..i])
    {
      var found := LookUp(m, selected[i]);
      entries := entries + [found];
      EntriesOfLonger(selected, i);
      match found
      case Some(LinkEntry(key)) =>
        removedLinks := removedLinks + [key];
      case Some(ResourceEntry(ref)) =>
        removedResources := removedResources + [ref];
      case None =>
    }
    assert selected[..|selected|] == selected;
    var loose := GetAdditionalLooseLinks(m.links, removedResources, removedLinks);
    WithLooseIsLookUp(m, selected, entries, removedResources, removedLinks);
    entries := entries + AsFound(AsEntries(loose));
  }

  lemma WithLooseIsLookUp(
      m: Model, selected: seq<Entry>, entries: seq<Option<Entry>>, rs: seq<ResourceRef>, ls: seq<LinkKey>)
    requires |entries| == |selected| && forall j :: 0 <= j < |selected| ==> entries[j] == LookedUp(m, selected[j])
    requires (forall j :: 0 <= j < |selected| ==> Present(m, selected[j])) ==>
               rs == ResourceEntries(selected) && ls == LinkEntries(selected)
    ensures IsLookUp(m, selected, entries + AsFound(AsEntries(LooseLinks(Keys(m.links), rs, ls))))
  {
    AllPresent(m, selected);
    if FirstMissing(m, selected).None? {
      assert forall i :: 0 <= i < |selected| ==> selected[i] in selected;
      FoundAppend(entries, selected, AsEntries(LooseLinks(Keys(m.links), rs, ls)));
    }
  }

  lemma FoundAppend(entries: seq<Option<Entry>>, selected: seq<Entry>, loose: seq<Entry>)
    requires |entries| == |selected| && forall j :: 0 <= j < |selected| ==> entries[j] == Some(selected[j])
    ensures entries + AsFound(loose) == AsFound(selected + loose)
  {
  }

  lemma EntriesOfLonger(selected: seq<Entry>, i: nat)
    requires i < |selected|
    ensures ResourceEntries(selected[..i + 1])
         == ResourceEntries(selected[..i]) + if selected[i].ResourceEntry? then [selected[i].ref] else []
    ensures LinkEntries(selected[..i + 1])
         == LinkEntries(selected[..i]) + if selected[i].LinkEntry? then [selected[i].key] else []
  {
    var last := [selected[i]];
    assert selected[..i + 1] == selected[..i] + last && last[1..] == [];
    ResourceEntriesConcat(selected[..i], last);
    LinkEntriesConcat(selected[..i], last);
  }

  /** The entries before the first that is missing, and its place. */
  function BeforeMissing(entries: seq<Option<Entry>>): seq<Entry> {
    if entries == [] || entries[0].None? then [] else [entries[0].value] + BeforeMissing(entries[1..])
  }

  method UpToMissing(entries: seq<Option<Entry>>) returns (found: seq<Entry>, missing: Option<nat>)
    ensures found == BeforeMissing(entries)
    ensures missing.None? <==> forall i :: 0 <= i < |entries| ==> entries[i].Some?
    ensures missing.Some? ==> missing.value == |found| < |entries|
  {
    found := [];
    for i := 0 to |entries|
      invariant |found| == i && forall j :: 0 <= j < i ==> entries[j].Some?
      invariant found + BeforeMissing(entries[i..]) == BeforeMissing(entries)
    {
      assert entries[i..][1..] == entries[i + 1..];
      if entries[i].None? {
        assert found + [] == found;
        return found, Some(i);
      }
      Regroup(found, [entries[i].value], BeforeMissing(entries[i + 1..]));
      found := found + [entries[i].value];
    }
    assert found + [] == found;
    missing := None;
  }

  lemma {:induction false} AllFound(entries: seq<Entry>)
    ensures BeforeMissing(AsFound(entries)) == entries
  {
    if entries == [] {
    } else {
      AllFound(entries[1..]);
      assert AsFound(entries)[1..] == AsFound(entries[1..]);
    }
  }

  lemma {:induction false} FoundBefore(m: Model, selected: seq<Entry>, entries: seq<Option<Entry>>)
    requires |selected| <= |entries| && FirstMissing(m, selected).Some?
    requires forall i :: 0 <= i < |selected| ==> entries[i] == LookedUp(m, selected[i])
    ensures BeforeMissing(entries) == PresentPrefix(m, selected)
  {
    if !Present(m, selected[0]) {
    } else {
      FoundBefore(m, selected[1..], entries[1..]);
    }
  }

  lemma FoundAreTaken(m: Model, selected: seq<Entry>)
    ensures forall entries: seq<Option<Entry>> :: IsLookUp(m, selected, entries) ==>
              && BeforeMissing(entries) == TakenFromBlackboard(m, selected)
              && ((forall i :: 0 <= i < |entries| ==> entries[i].Some?) <==> FirstMissing(m, selected).None?)
  {
    forall entries: seq<Option<Entry>> | IsLookUp(m, selected, entries)
      ensures BeforeMissing(entries) == TakenFromBlackboard(m, selected)
      ensures (forall i :: 0 <= i < |entries| ==> entries[i].Some?) <==> FirstMissing(m, selected).None?
    {
      if FirstMissing(m, selected).None? {
        AllFound(WithLoose(m, selected));
      } else {
        FoundBefore(m, selected, entries);
        var prefix := PresentPrefix(m, selected);
        assert entries[|prefix|] == LookedUp(m, selected[|prefix|]);
        AllPresent(m, selected);
        FirstMissingIsMissing(m, selected);
      }
    }
  }

  lemma {:induction false} FirstMissingIsMissing(m: Model, selected: seq<Entry>)
    requires FirstMissing(m, selected).Some?
    ensures !Present(m, FirstMissing(m, selected).value)
  {
    if !Present(m, selected[0]) {
    } else {
      FirstMissingIsMissing(m, selected[1..]);
    }
  }

  // ----- Expanding a selection of the depi -----

  method FindGroup(groups: seq<Group>, url: string) returns (group: Option<Group>)
    ensures group == FirstGroup(groups, url)
  {
    for i := 0 to |groups|
      invariant FirstGroup(groups, url) == FirstGroup(groups[i..], url)
    {
      assert groups[i..][1..] == groups[i + 1..];
      if groups[i].url == url {
        return Some(groups[i]);
      }
    }
    return None;
  }

  method RefFromResource(m: Model, ref: ResourceRef) returns (r: Result<ResourceRef, ApiError>)
    ensures r == RefInGroups(m, ref)
  {
    var idx := FindResource(m.resources, ref);
    if idx < 0 {
      return Err(NoResource(ref));
    }
    var group := FindGroup(m.groups, ref.groupUrl);
    if group.None? {
      return Err(NoGroup(ref.groupUrl));
    }
    return Ok(ref.(toolId := group.value.toolId));
  }

  method Expand(m: Model, e: Entry) returns (r: Result<Entry, ApiError>)
    ensures r == DeletionEntry(m, e)
  {
    match e
    case LinkEntry(key) =>
      var idx := FindLink(m.links, key);
      if idx < 0 {
        return Err(NotInModel(e));
      }
      var source := RefFromResource(m, key.fromRes);
      if source.Err? {
        return Err(source.error);
      }
      var target := RefFromResource(m, key.toRes);
      if target.Err? {
        return Err(target.error);
      }
      return Ok(LinkEntry(LinkKey(source.value, target.value)));
    case ResourceEntry(ref) =>
      var found := RefFromResource(m, ref);
      if found.Err? {
        return Err(found.error);
      }
      return Ok(ResourceEntry(found.value));
  }

  function Onto(known: seq<Entry>, rest: Result<seq<Entry>, ApiError>): Result<seq<Entry>, ApiError> {
    if rest.Err? then rest else Ok(known + rest.value)
  }

  method ExpandAll(m: Model, entries: seq<Entry>) returns (refs: Result<seq<Entry>, ApiError>)
    ensures refs == DeletionEntryList(m, entries)
  {
    var result: seq<Entry> := [];
    ghost var all := DeletionEntryList(m, entries);
    assert all.Ok? ==> [] + all.value == all.value;
    for i := 0 to |entries|
      invariant all == Onto(result, DeletionEntryList(m, entries[i..]))
    {
      assert entries[i..][1..] == entries[i + 1..];
      var r := Expand(m, entries[i]);
      if r.Err? {
        return Err(r.error);
      }
      ghost var rest := DeletionEntryList(m, entries[i + 1..]);
      if rest.Ok? {
        Regroup(result, [r.value], rest.value);
      }
      result := result + [r.value];
    }
    assert result + [] == result;
    return Ok(result);
  }

  // ----- Editing a group -----

  method GroupsWithout(groups: seq<Group>, toolId: string, url: string) returns (result: seq<Group>)
    ensures result == OtherGroups(groups, toolId, url)
  {
    result := [];
    for i := 0 to |groups|
      invariant result + OtherGroups(groups[i..], toolId, url) == OtherGroups(groups, toolId, url)
    {
      assert groups[i..][1..] == groups[i + 1..];
      ghost var kept := if !(groups[i].toolId == toolId && groups[i].url == url) then [groups[i]] else [];
      Regroup(result, kept, OtherGroups(groups[i + 1..], toolId, url));
      if !(groups[i].toolId == toolId && groups[i].url == url) {
        result := result + [groups[i]];
      } else {
        assert result + kept == result;
      }
    }
    assert result + [] == result;
  }

  method ResourcesWithout(resources: seq<Resource>, toolId: string, url: string) returns (result: seq<Resource>)
    ensures result == OutsideGroup(resources, toolId, url)
  {
    result := [];
    for i := 0 to |resources|
      invariant result + OutsideGroup(resources[i..], toolId, url) == OutsideGroup(resources, toolId, url)
    {
      assert resources[i..][1..] == resources[i + 1..];
      ghost var kept := if !InGroup(resources[i], toolId, url) then [resources[i]] else [];
      Regroup(result, kept, OutsideGroup(resources[i + 1..], toolId, url));
      if !InGroup(resources[i], toolId, url) {
        result := result + [resources[i]];
      } else {
        assert result + kept == result;
      }
    }
    assert result + [] == result;
  }

  method LinksWithout(links: seq<Link>, toolId: string, url: string) returns (result: seq<Link>)
    ensures result == LinksOutsideGroup(links, toolId, url)
  {
    result := [];
    for i := 0 to |links|
      invariant result + LinksOutsideGroup(links[i..], toolId, url) == LinksOutsideGroup(links, toolId, url)
    {
      assert links[i..][1..] == links[i + 1..];
      ghost var outside := !InGroup(links[i].source, toolId, url) && !InGroup(links[i].target, toolId, url);
      ghost var kept := if outside then [links[i]] else [];
      Regroup(result, kept, LinksOutsideGroup(links[i + 1..], toolId, url));
      if !InGroup(links[i].source, toolId, url) && !InGroup(links[i].target, toolId, url) {
        result := result + [links[i]];
      } else {
        assert result + kept == result;
      }
    }
    assert result + [] == result;
  }

  method GroupsRenamed(groups: seq<Group>, toolId: string, url: string, desc: Group) returns (result: seq<Group>)
    ensures result == GroupRenamed(NO_MODEL.(groups := groups), toolId, url, desc).groups
  {
    result := [];
    for i := 0 to |groups|
      invariant |result| == i
      invariant forall j :: 0 <= j < i ==>
                  result[j] == if groups[j].toolId == toolId && groups[j].url == url then desc else groups[j]
    {
      if groups[i].toolId == toolId && groups[i].url == url {
        result := result + [desc];
      } else {
        result := result + [groups[i]];
      }
    }
  }

  /** A resource of the renamed group, or any other as it is. */
  method UpdatedResource(r: Resource, toolId: string, url: string, desc: Group) returns (r': Resource)
    ensures r' == Moved(r, toolId, url, desc)
  {
    if r.ref.toolId != toolId || r.ref.groupUrl != url {
      return r;
    }
    return r.(ref := ResourceRef(desc.toolId, desc.url, r.ref.url), groupVersion := desc.version);
  }

  method ResourcesMoved(resources: seq<Resource>, toolId: string, url: string, desc: Group)
    returns (result: seq<Resource>)
    ensures result == GroupRenamed(NO_MODEL.(resources := resources), toolId, url, desc).resources
  {
    result := [];
    for i := 0 to |resources|
      invariant |result| == i
      invariant forall j :: 0 <= j < i ==> result[j] == Moved(resources[j], toolId, url, desc)
    {
      var r := UpdatedResource(resources[i], toolId, url, desc);
      result := result + [r];
    }
  }

  method LinksMoved(links: seq<Link>, toolId: string, url: string, desc: Group) returns (result: seq<Link>)
    ensures result == GroupRenamed(NO_MODEL.(links := links), toolId, url, desc).links
  {
    result := [];
    for i := 0 to |links|
      invariant |result| == i
      invariant forall j :: 0 <= j < i ==>
                  result[j] == links[j].(source := Moved(links[j].source, toolId, url, desc),
                                         target := Moved(links[j].target, toolId, url, desc))
    {
      var source := UpdatedResource(links[i].source, toolId, url, desc);
      var target := UpdatedResource(links[i].target, toolId, url, desc);
      result := result + [links[i].(source := source, target := target)];
    }
  }

  // ----- What every step keeps, and when -----

  /** Both ends of every link are listed, and no link twice. */
  ghost predicate Neat(m: Model) { Integrity(m) && NoLinkRepeats(m) }

  ghost predicate Inv(s: Store) {
    Neat(s.blackboard) && Neat(s.depi) && forall i :: 0 <= i < |s.pending| ==> Neat(s.pending[i])
  }

  /** The store as it stands lets the event be: no link is made that is there already, saving brings none
      that the depi has, renaming makes no two links one, and what a removal takes out leaves no other
      link without an end. */
  ghost predicate Permitted(s: Store, e: Event) {
    match e
    case LinkResources(source, target) =>
      Stopped(s.blackboard, source) || !ListsLink(s.blackboard.links, LinkKey(source.ref, target.ref))
    case ClearBlackboard => true
    case Timer => true
    case SaveBlackboard => forall k :: k in Keys(s.blackboard.links) ==> k !in Keys(s.depi.links)
    case RemoveFromBlackboard(selected) =>
      || RemovalEntries(s.blackboard, selected).Ok?
      || SafeToTake(s.blackboard, PresentPrefix(s.blackboard, selected))
    case DeleteFromDepi(selected) =>
      || DeletionEntries(s.depi, selected).Err?
      || SafeToTake(s.depi, DeletionEntries(s.depi, selected).value)
    case EditResourceGroup(toolId, url, desc, remove) =>
      remove || forall k, l :: k in Keys(s.depi.links) && l in Keys(s.depi.links) && k != l ==>
                  !LinksConfused(k, l, toolId, url, desc)
  }

  /** A selection with its loose links can always be taken out of a neat model. */
  lemma WithLooseIsSafe(m: Model, selected: seq<Entry>)
    requires Neat(m)
    ensures SafeToTake(m, WithLoose(m, selected))
  {
    var rs, ls := ResourceEntries(selected), LinkEntries(selected);
    LooseEntries(m, selected);
    forall k | Count(Keys(m.links), k) > Count(LinkEntries(WithLoose(m, selected)), k)
      ensures Outlasts(m, rs, k.fromRes) && Outlasts(m, rs, k.toRes)
    {
      CountAppend(ls, LooseLinks(Keys(m.links), rs, ls), k);
      LooseLinksCounts(Keys(m.links), rs, ls, k);
      CountPositive(ls, k);
      CountPositive(Keys(m.links), k);
      assert !TouchesAny(k, rs);
      CountPositive(rs, k.fromRes);
      CountPositive(rs, k.toRes);
      CountPositive(RefsOf(m.resources), k.fromRes);
      CountPositive(RefsOf(m.resources), k.toRes);
    }
  }

  /** Deleting is permitted whenever the groups lead from the selected entries and the loose links to
      themselves. */
  lemma AgreedDeletionIsPermitted(s: Store, selected: seq<Entry>)
    requires Inv(s) && RemovalEntries(s.depi, selected).Ok?
    requires forall e :: e in WithLoose(s.depi, selected) ==> EntryAgrees(s.depi, e)
    ensures Permitted(s, DeleteFromDepi(selected))
  {
    DeletionAgreesExactly(s.depi, selected);
    WithLooseIsSafe(s.depi, selected);
  }

  /** Then exactly the selected links and the links at selected resources go. */
  lemma AgreedDeletionIsExact(s: Store, selected: seq<Entry>, s': Store)
    requires Neat(s.depi) && RemovalEntries(s.depi, selected).Ok? && Step(s, DeleteFromDepi(selected), s')
    requires forall e :: e in WithLoose(s.depi, selected) ==> EntryAgrees(s.depi, e)
    ensures forall k :: k in Keys(s'.depi.links) <==>
              k in Keys(s.depi.links) && k !in LinkEntries(selected) && !TouchesAny(k, ResourceEntries(selected))
    ensures Integrity(s'.depi)
  {
    DeletionAgreesExactly(s.depi, selected);
    EntriesMakeRemoval(s.depi, s'.depi, selected);
    RemovalIsExact(s.depi, s'.depi, ResourceEntries(selected), LinkEntries(selected));
  }

  /** So it is when a selection is removed from the blackboard and none of it is missing. */
  lemma BlackboardRemovalIsExact(s: Store, selected: seq<Entry>, s': Store)
    requires Neat(s.blackboard) && Step(s, RemoveFromBlackboard(selected), s')
    requires forall e :: e in selected ==> Present(s.blackboard, e)
    ensures forall k :: k in Keys(s'.blackboard.links) <==>
              k in Keys(s.blackboard.links) && k !in LinkEntries(selected) && !TouchesAny(k, ResourceEntries(selected))
    ensures Integrity(s'.blackboard)
  {
    AllPresent(s.blackboard, selected);
    EntriesMakeRemoval(s.blackboard, s'.blackboard, selected);
    RemovalIsExact(s.blackboard, s'.blackboard, ResourceEntries(selected), LinkEntries(selected));
  }

  lemma TakingKeepsNeat(m: Model, m': Model, entries: seq<Entry>)
    requires Neat(m) && IsTaken(m, m', entries)
    ensures Neat(m') <==> SafeToTake(m, entries)
  {
    TakingKeepsIntegrity(m, m', entries);
    TakingRepeatsNoLink(m, m', entries);
  }

  lemma LinkingKeepsNeat(m: Model, source: Resource, target: Resource)
    requires Neat(m) && !Stopped(m, source)
    ensures Neat(Linked(m, source, target)) <==> !ListsLink(m.links, LinkKey(source.ref, target.ref))
  {
    LinkingKeepsIntegrity(m, source, target);
    LinkingCanRepeat(m, source, target);
  }

  lemma SavingKeepsNeat(depi: Model, blackboard: Model)
    requires Neat(depi) && Neat(blackboard)
    ensures Neat(Saved(depi, blackboard)) <==> forall k :: k in Keys(blackboard.links) ==> k !in Keys(depi.links)
  {
    SavingKeepsIntegrity(depi, blackboard);
    SavingCanRepeat(depi, blackboard);
  }

  lemma {:induction false} GroupRemovalRepeatsNoLink(links: seq<Link>, toolId: string, url: string, k: LinkKey)
    ensures Count(Keys(LinksOutsideGroup(links, toolId, url)), k) <= Count(Keys(links), k)
  {
    if links == [] {
    } else {
      var rest := LinksOutsideGroup(links[1..], toolId, url);
      GroupRemovalRepeatsNoLink(links[1..], toolId, url, k);
      assert Keys(links)[1..] == Keys(links[1..]);
      if LinksOutsideGroup(links, toolId, url) != rest {
        assert Keys([links[0]] + rest)[1..] == Keys(rest);
      }
    }
  }

  lemma EditingKeepsNeat(m: Model, toolId: string, url: string, desc: Group, remove: bool)
    requires Neat(m)
    ensures Neat(Edited(m, toolId, url, desc, remove))
       <==> remove || forall k, l :: k in Keys(m.links) && l in Keys(m.links) && k != l ==>
                        !LinksConfused(k, l, toolId, url, desc)
  {
    if remove {
      GroupRemovalKeepsIntegrity(m, toolId, url);
      forall k: LinkKey ensures Count(Keys(GroupRemoved(m, toolId, url).links), k) <= 1 {
        GroupRemovalRepeatsNoLink(m.links, toolId, url, k);
      }
    } else {
      GroupRenameKeepsIntegrity(m, toolId, url, desc);
      RenamingCanRepeat(m, toolId, url, desc);
    }
  }

  lemma NothingIsNeat()
    ensures Neat(NO_MODEL)
  {
    assert Keys(NO_MODEL.links) == [];
  }

  /** A step keeps both models, and those that timers hold, referentially intact and free of repeated
      links exactly if it is permitted. */
  lemma StepKeepsInv(s: Store, e: Event, s': Store)
    requires Inv(s) && Step(s, e, s')
    ensures Inv(s') <==> Permitted(s, e)
  {
    NothingIsNeat();
    match e
    case LinkResources(source, target) =>
      if !Stopped(s.blackboard, source) {
        LinkingKeepsNeat(s.blackboard, source, target);
        assert s'.pending[|s.pending|] == Linked(s.blackboard, source, target);
      }
    case ClearBlackboard =>
    case Timer =>
    case SaveBlackboard =>
      SavingKeepsNeat(s.depi, s.blackboard);
    case RemoveFromBlackboard(selected) =>
      TakingKeepsNeat(s.blackboard, s'.blackboard, TakenFromBlackboard(s.blackboard, selected));
      WithLooseIsSafe(s.blackboard, selected);
    case DeleteFromDepi(selected) =>
      if DeletionEntries(s.depi, selected).Ok? {
        TakingKeepsNeat(s.depi, s'.depi, DeletionEntries(s.depi, selected).value);
      }
    case EditResourceGroup(toolId, url, desc, remove) =>
      EditingKeepsNeat(s.depi, toolId, url, desc, remove);
  }

  // ----- Runs -----

  ghost predicate IsRun(stores: seq<Store>, events: seq<Event>) {
    && |stores| == |events| + 1
    && forall i :: 0 <= i < |events| ==> Step(stores[i], events[i], stores[i + 1])
  }

  lemma {:induction false} PermittedRunKeepsInv(stores: seq<Store>, events: seq<Event>, n: nat)
    requires IsRun(stores, events) && Inv(stores[0]) && n <= |events|
    requires forall i :: 0 <= i < |events| ==> Permitted(stores[i], events[i])
    ensures Inv(stores[n])
  {
    if n == 0 {
    } else {
      PermittedRunKeepsInv(stores, events, n - 1);
      StepKeepsInv(stores[n - 1], events[n - 1], stores[n]);
    }
  }

  /** A run keeps everything intact at all its stages exactly if each of its events is permitted when it
      comes. */
  lemma RunKeepsInv(stores: seq<Store>, events: seq<Event>)
    requires IsRun(stores, events) && Inv(stores[0])
    ensures (forall i :: 0 <= i < |stores| ==> Inv(stores[i]))
       <==> forall i :: 0 <= i < |events| ==> Permitted(stores[i], events[i])
  {
    if forall i :: 0 <= i < |events| ==> Permitted(stores[i], events[i]) {
      forall i | 0 <= i < |stores| ensures Inv(stores[i]) {
        PermittedRunKeepsInv(stores, events, i);
      }
    }
    if forall i :: 0 <= i < |stores| ==> Inv(stores[i]) {
      forall i | 0 <= i < |events| ensures Permitted(stores[i], events[i]) {
        StepKeepsInv(stores[i], events[i], stores[i + 1]);
      }
    }
  }

  // ----- What goes wrong -----

  const RESOURCE_Z := ResourceRef("git", "repo", "z")

  /** x linked to y, and nothing else. */
  const X_TO_Y := Model([], [RESOURCE_X, RESOURCE_Y], [Link(RESOURCE_X, RESOURCE_Y, false)])

  lemma LinkingXToY()
    ensures !Stopped(NO_MODEL, RESOURCE_X) && Linked(NO_MODEL, RESOURCE_X, RESOURCE_Y) == X_TO_Y
    ensures RefsOf(X_TO_Y.resources) == [RESOURCE_X.ref, RESOURCE_Y.ref]
    ensures Keys(X_TO_Y.links) == [LinkKey(RESOURCE_X.ref, RESOURCE_Y.ref)]
    ensures RESOURCE_X.ref != RESOURCE_Y.ref
  {
    assert RESOURCE_X.ref.url[0] == 'x' && RESOURCE_Y.ref.url[0] == 'y';
    assert RefsOf(X_TO_Y.resources) == [RESOURCE_X.ref, RESOURCE_Y.ref];
    assert Keys(X_TO_Y.links) == [LinkKey(RESOURCE_X.ref, RESOURCE_Y.ref)];
  }

  lemma PrefixBeforeZ()
    ensures var selected := [ResourceEntry(RESOURCE_X.ref), ResourceEntry(RESOURCE_Z)];
            TakenFromBlackboard(X_TO_Y, selected) == [ResourceEntry(RESOURCE_X.ref)]
  {
    var selected := [ResourceEntry(RESOURCE_X.ref), ResourceEntry(RESOURCE_Z)];
    LinkingXToY();
    assert X_TO_Y.resources[0].ref == RESOURCE_X.ref;
    assert RESOURCE_Z.url[0] == 'z' && RESOURCE_X.ref.url[0] == 'x' && RESOURCE_Y.ref.url[0] == 'y';
    assert selected[1..] == [ResourceEntry(RESOURCE_Z)];
    assert Present(X_TO_Y, selected[0]) && !Present(X_TO_Y, selected[1]);
    assert PresentPrefix(X_TO_Y, selected) == [selected[0]] + PresentPrefix(X_TO_Y, selected[1..]);
  }

  /** Taking out x leaves y and the link. */
  lemma TakingX()
    ensures var x, y, prefix := RESOURCE_X.ref, RESOURCE_Y.ref, [ResourceEntry(RESOURCE_X.ref)];
            && WithoutEach([x, y], ResourceEntries(prefix)) == [y]
            && WithoutEach([LinkKey(x, y)], LinkEntries(prefix)) == [LinkKey(x, y)]
  {
    var x, y, prefix := RESOURCE_X.ref, RESOURCE_Y.ref, [ResourceEntry(RESOURCE_X.ref)];
    assert prefix[1..] == [];
    assert ResourceEntries(prefix) == [x] + ResourceEntries([]) == [x];
    assert LinkEntries(prefix) == [] + LinkEntries([]) == [];
    assert [x][1..] == [] && [x, y][1..] == [y];
  }

  /** A removal with a missing entry, where the entry before it has a link: the resource goes, the link
      stays. */
  lemma MissingEntryBreaksIntegrity(s: Store, s': Store)
    requires s.blackboard == X_TO_Y
    requires Step(s, RemoveFromBlackboard([ResourceEntry(RESOURCE_X.ref), ResourceEntry(RESOURCE_Z)]), s')
    ensures Integrity(s.blackboard) && !Integrity(s'.blackboard)
  {
    var x, y := RESOURCE_X.ref, RESOURCE_Y.ref;
    LinkingXToY();
    PrefixBeforeZ();
    TakingX();
    assert LinkKey(x, y) in Keys(s'.blackboard.links) && RefsOf(s'.blackboard.resources) == [y];
  }

  function MissingEntryEvents(): seq<Event> {
    [LinkResources(RESOURCE_X, RESOURCE_Y), Timer,
     RemoveFromBlackboard([ResourceEntry(RESOURCE_X.ref), ResourceEntry(RESOURCE_Z)])]
  }

  /** It happens in a run that starts with an empty blackboard. */
  lemma SomeMissingEntry(depi: Model) returns (stores: seq<Store>)
    ensures IsRun(stores, MissingEntryEvents()) && stores[0] == Store(NO_MODEL, depi, [])
    ensures Integrity(stores[2].blackboard) && !Integrity(stores[3].blackboard)
  {
    var left := X_TO_Y.(resources := [RESOURCE_Y]);
    stores := [Store(NO_MODEL, depi, []), Store(NO_MODEL, depi, [X_TO_Y]), Store(X_TO_Y, depi, []),
               Store(left, depi, [])];
    LinkingXToY();
    PrefixBeforeZ();
    TakingX();
    assert RefsOf(left.resources) == [RESOURCE_Y.ref];
    assert IsTaken(X_TO_Y, left, [ResourceEntry(RESOURCE_X.ref)]);
    var events := MissingEntryEvents();
    assert Step(stores[0], events[0], stores[1]) && Step(stores[1], events[1], stores[2]);
    assert Step(stores[2], events[2], stores[3]);
    MissingEntryBreaksIntegrity(stores[2], stores[3]);
  }

  function RepeatingEvents(): seq<Event> {
    [LinkResources(RESOURCE_X, RESOURCE_Y), Timer, LinkResources(RESOURCE_X, RESOURCE_Y), Timer]
  }

  /** Asking for a link twice lists it twice. */
  lemma SomeLinkRepeats(depi: Model) returns (stores: seq<Store>)
    ensures IsRun(stores, RepeatingEvents()) && stores[0] == Store(NO_MODEL, depi, [])
    ensures NoLinkRepeats(stores[2].blackboard) && !NoLinkRepeats(stores[4].blackboard)
  {
    var key := LinkKey(RESOURCE_X.ref, RESOURCE_Y.ref);
    var twice := Linked(X_TO_Y, RESOURCE_X, RESOURCE_Y);
    stores := [Store(NO_MODEL, depi, []), Store(NO_MODEL, depi, [X_TO_Y]), Store(X_TO_Y, depi, []),
               Store(X_TO_Y, depi, [twice]), Store(twice, depi, [])];
    var events := RepeatingEvents();
    LinkingXToY();
    assert !Stopped(X_TO_Y, RESOURCE_X) by {
      assert X_TO_Y.links[0].Key() == key != LinkKey(RESOURCE_X.ref, RESOURCE_X.ref);
    }
    assert Step(stores[0], events[0], stores[1]) && Step(stores[1], events[1], stores[2]);
    assert Step(stores[2], events[2], stores[3]) && Step(stores[3], events[3], stores[4]);
    NoRepeatsIsDistinct(X_TO_Y);
    assert X_TO_Y.links[0].Key() == key;
    LinkingCanRepeat(X_TO_Y, RESOURCE_X, RESOURCE_Y);
  }

  /** A link whose timer runs after another link was asked for is lost. */
  lemma LaterLinkDropsEarlier(s: Store, s1: Store, s2: Store, s3: Store, s4: Store,
                              source: Resource, target: Resource, source': Resource, target': Resource)
    requires s.pending == [] && !Stopped(s.blackboard, source) && !Stopped(s.blackboard, source')
    requires Step(s, LinkResources(source, target), s1) && Step(s1, LinkResources(source', target'), s2)
    requires Step(s2, Timer, s3) && Step(s3, Timer, s4)
    ensures s3.blackboard == Linked(s.blackboard, source, target)
    ensures s4.blackboard == Linked(s.blackboard, source', target') && |s4.blackboard.links| == |s.blackboard.links| + 1
  {
  }

  /** Saving before the timer of a link has run brings the saved links back: all three steps are
      permitted, and saving once more is not. */
  lemma LateTimerRestoresLinks(s: Store, s1: Store, s2: Store, s3: Store, source: Resource, target: Resource)
    requires Inv(s) && s.pending == [] && s.blackboard.links != []
    requires Permitted(s, LinkResources(source, target)) && !Stopped(s.blackboard, source)
    requires Permitted(s, SaveBlackboard)
    requires Step(s, LinkResources(source, target), s1) && Step(s1, SaveBlackboard, s2) && Step(s2, Timer, s3)
    ensures Inv(s3) && !Permitted(s3, SaveBlackboard)
  {
    StepKeepsInv(s, LinkResources(source, target), s1);
    StepKeepsInv(s1, SaveBlackboard, s2);
    StepKeepsInv(s2, Timer, s3);
    var k := s.blackboard.links[0].Key();
    assert Keys(s3.blackboard.links)[0] == k;
    assert Keys(s3.depi.links)[|s.depi.links|] == k;
  }
}
