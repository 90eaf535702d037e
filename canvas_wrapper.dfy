/** The canvas wrapper: the persisted canvas snapshot, the scene it exposes
    to the rest of the application, and the append operation that renames
    elements whose id is already taken. */
module CanvasWrapper {
  import opened Wrappers
  import opened Json
  import opened Collections

  /** A scene element: its id and its other fields. */
  datatype Element = Element(id: string, props: map<string, Json>)

  function Ids(s: seq<Element>): (r: set<string>)
    ensures forall k :: 0 <= k < |s| ==> s[k].id in r
    ensures forall x :: x in r ==> exists k :: 0 <= k < |s| && s[k].id == x
  {
    set k | 0 <= k < |s| :: s[k].id
  }

  lemma IdsAppend(a: seq<Element>, b: seq<Element>)
    ensures Ids(a + b) == Ids(a) + Ids(b)
  {
    forall x | x in Ids(a + b)
      ensures x in Ids(a) + Ids(b)
    {
      var k :| 0 <= k < |a + b| && (a + b)[k].id == x;
      if k >= |a| {
        assert b[k - |a|].id == x;
      }
    }
    forall x | x in Ids(a)
      ensures x in Ids(a + b)
    {
      var k :| 0 <= k < |a| && a[k].id == x;
      assert (a + b)[k] == a[k];
    }
    forall x | x in Ids(b)
      ensures x in Ids(a + b)
    {
      var k :| 0 <= k < |b| && b[k].id == x;
      assert (a + b)[|a| + k] == b[k];
    }
  }

  /** No two elements share an id. */
  predicate UniqueIds(s: seq<Element>) {
    forall i, j :: 0 <= i < j < |s| ==> s[i].id != s[j].id
  }

  /** The id given to the batch entry at position `k` when its id is taken:
      the old id, a dash and the generated suffix (`${Date.now()}-<random>`). */
  function Renamed(id: string, suffix: nat -> string, k: nat): (r: string)
    ensures |r| > |id| && r[..|id|] == id && r[|id|] == '-'
  {
    id + "-" + suffix(k)
  }

  /** The elements `addElements` appends for `batch[k..]`, given the set
      `taken` of ids in use: an entry whose id is taken gets a renamed copy
      and the new id becomes taken; any other entry is kept as it is and its
      id becomes taken. */
  function Resolve(taken: set<string>, batch: seq<Element>, suffix: nat -> string, k: nat): (r: seq<Element>)
    requires k <= |batch|
    ensures |r| == |batch| - k
    decreases |batch| - k
  {
    if k == |batch| then []
    else
      var el := batch[k];
      if el.id in taken then
        var newId := Renamed(el.id, suffix, k);
        [el.(id := newId)] + Resolve(taken + {newId}, batch, suffix, k + 1)
      else
        [el] + Resolve(taken + {el.id}, batch, suffix, k + 1)
  }

  lemma IdsCons(first: Element, rest: seq<Element>)
    ensures Ids([first] + rest) == {first.id} + Ids(rest)
  {
    IdsAppend([first], rest);
    assert [first][0].id == first.id;
    assert Ids([first]) == {first.id};
  }

  /** One entry of the batch: what is appended for it and the id that becomes taken. */
  lemma ResolveStep(taken: set<string>, batch: seq<Element>, suffix: nat -> string, k: nat)
    requires k < |batch|
    ensures batch[k].id in taken ==>
              Resolve(taken, batch, suffix, k) ==
              [batch[k].(id := Renamed(batch[k].id, suffix, k))] +
              Resolve(taken + {Renamed(batch[k].id, suffix, k)}, batch, suffix, k + 1)
    ensures batch[k].id !in taken ==>
              Resolve(taken, batch, suffix, k) == [batch[k]] + Resolve(taken + {batch[k].id}, batch, suffix, k + 1)
  {
  }

  /** The first resolved element, followed by the rest resolved with its id taken. */
  lemma ResolveHead(taken: set<string>, batch: seq<Element>, suffix: nat -> string, k: nat)
    requires k < |batch|
    ensures var first := if batch[k].id in taken then batch[k].(id := Renamed(batch[k].id, suffix, k)) else batch[k];
            Resolve(taken, batch, suffix, k) == [first] + Resolve(taken + {first.id}, batch, suffix, k + 1)
  {
    ResolveStep(taken, batch, suffix, k);
  }

  /** The rule `addElements` applies to each entry, stated on its output: an
      entry is renamed exactly when its id is held by the scene or by an
      element appended before it, and only its id changes. */
  lemma {:induction false} ResolveAt(taken: set<string>, batch: seq<Element>, suffix: nat -> string, k: nat, i: nat)
    requires k <= i < |batch|
    ensures var r := Resolve(taken, batch, suffix, k);
            var el := batch[i];
            r[i - k] == (if el.id in taken + Ids(r[..i - k]) then el.(id := Renamed(el.id, suffix, i)) else el)
    decreases i - k
  {
    var r := Resolve(taken, batch, suffix, k);
    if i > k {
      var el := batch[k];
      var first := if el.id in taken then el.(id := Renamed(el.id, suffix, k)) else el;
      var rest := Resolve(taken + {first.id}, batch, suffix, k + 1);
      ResolveHead(taken, batch, suffix, k);
      ResolveAt(taken + {first.id}, batch, suffix, k + 1, i);
      RuleAfterFirst(taken, first, rest, i - (k + 1), batch[i], batch[i].(id := Renamed(batch[i].id, suffix, i)));
    }
  }

  /** The renaming rule for entry m of what follows `first` carries over to
      entry m + 1 of the whole output, with `first`'s id counted as taken. */
  lemma RuleAfterFirst(taken: set<string>, first: Element, rest: seq<Element>, m: nat, el: Element, renamed: Element)
    requires m < |rest|
    requires rest[m] == (if el.id in (taken + {first.id}) + Ids(rest[..m]) then renamed else el)
    ensures ([first] + rest)[m + 1] == (if el.id in taken + Ids(([first] + rest)[..m + 1]) then renamed else el)
  {
    assert ([first] + rest)[..m + 1] == [first] + rest[..m];
    IdsCons(first, rest[..m]);
  }

  /** Each appended element keeps the fields of its batch entry, and its id is
      either the entry's id or the entry's renamed id. */
  lemma ResolveShape(taken: set<string>, batch: seq<Element>, suffix: nat -> string, i: nat)
    requires i < |batch|
    ensures var r := Resolve(taken, batch, suffix, 0);
            && r[i].props == batch[i].props
            && (r[i].id == batch[i].id || r[i].id == Renamed(batch[i].id, suffix, i))
  {
    ResolveAt(taken, batch, suffix, 0, i);
  }

  /** The assumption the code makes without checking it: a generated id is
      neither in the scene, nor the id of an earlier batch entry, nor an id
      generated for an earlier entry. */
  predicate FreshRenames(sceneIds: set<string>, batch: seq<Element>, suffix: nat -> string) {
    forall i :: 0 <= i < |batch| ==>
      && Renamed(batch[i].id, suffix, i) !in sceneIds
      && (forall j :: 0 <= j < i ==> Renamed(batch[i].id, suffix, i) != batch[j].id)
      && (forall j :: 0 <= j < i ==> Renamed(batch[i].id, suffix, i) != Renamed(batch[j].id, suffix, j))
  }

  /** Under that assumption every appended element gets an id that is free at
      the moment it is appended. */
  lemma ResolveFresh(taken: set<string>, batch: seq<Element>, suffix: nat -> string, i: nat)
    requires FreshRenames(taken, batch, suffix)
    requires i < |batch|
    ensures var r := Resolve(taken, batch, suffix, 0);
            r[i].id !in taken + Ids(r[..i])
  {
    var r := Resolve(taken, batch, suffix, 0);
    ResolveAt(taken, batch, suffix, 0, i);
    if r[i].id != batch[i].id {
      var g := Renamed(batch[i].id, suffix, i);
      assert r[i].id == g;
      forall j | 0 <= j < i
        ensures r[..i][j].id != g
      {
        ResolveShape(taken, batch, suffix, j);
      }
    }
  }

  /** If the scene's ids are unique and the generated ids are fresh, the ids
      are still unique once the batch is appended. */
  lemma AppendKeepsIdsUnique(scene: seq<Element>, batch: seq<Element>, suffix: nat -> string)
    requires UniqueIds(scene)
    requires FreshRenames(Ids(scene), batch, suffix)
    ensures UniqueIds(scene + Resolve(Ids(scene), batch, suffix, 0))
  {
    var r := Resolve(Ids(scene), batch, suffix, 0);
    var s := scene + r;
    forall i, j | 0 <= i < j < |s|
      ensures s[i].id != s[j].id
    {
      if j >= |scene| {
        var jj := j - |scene|;
        ResolveFresh(Ids(scene), batch, suffix, jj);
        if i >= |scene| {
          assert s[i] == r[..jj][i - |scene|];
        }
      }
    }
  }

  /** `el.isDeleted` is truthy. */
  predicate IsDeleted(el: Element) {
    "isDeleted" in el.props && Truthy(el.props["isDeleted"])
  }

  /** `elements.filter(el => !el.isDeleted)` */
  function ActiveElements(elements: seq<Element>): (r: seq<Element>)
    ensures |r| <= |elements|
    ensures forall k :: 0 <= k < |r| ==> !IsDeleted(r[k])
  {
    Filter(elements, (el: Element) => !IsDeleted(el))
  }

  /** The active elements are exactly the elements not marked deleted, in order. */
  lemma ActiveElementsExact(elements: seq<Element>)
    ensures forall k :: 0 <= k < |ActiveElements(elements)| ==>
              ActiveElements(elements)[k] in elements && !IsDeleted(ActiveElements(elements)[k])
    ensures forall k :: 0 <= k < |elements| && !IsDeleted(elements[k]) ==> elements[k] in ActiveElements(elements)
    ensures (forall k :: 0 <= k < |elements| ==> !IsDeleted(elements[k])) ==> ActiveElements(elements) == elements
  {
    if forall k :: 0 <= k < |elements| ==> !IsDeleted(elements[k]) {
      FilterAll(elements, (el: Element) => !IsDeleted(el));
    }
  }

  /** `el && el.id && el.type && typeof el.x === 'number' && typeof el.y === 'number'` */
  predicate IsValidStored(el: Json) {
    Truthy(el) && TruthyProp(el, "id") && TruthyProp(el, "type") && NumberProp(el, "x") && NumberProp(el, "y")
  }

  /** `parsed && Array.isArray(parsed.elements)` */
  predicate HasElementsArray(parsed: Json) {
    Truthy(parsed) && Prop(parsed, "elements").Some? && Prop(parsed, "elements").value.JArr?
  }

  /** The result of `loadCanvasData`: the initial elements, if any, and
      whether the stored snapshot was removed as corrupt. */
  datatype Loaded = Loaded(elements: Option<seq<Json>>, removeStorage: bool)

  /** `loadCanvasData`: `data` is the stored text (None when absent) and
      `decode` stands for `JSON.parse`. */
  function LoadCanvasData(data: Option<string>, decode: string -> Option<Json>): (r: Loaded)
    ensures r.elements.Some? ==> |r.elements.value| > 0 && !r.removeStorage
    ensures r.elements.Some? ==> forall k :: 0 <= k < |r.elements.value| ==> IsValidStored(r.elements.value[k])
    ensures r.removeStorage <==> data.Some? && data.value != "" && r.elements.None?
  {
    if data.None? || data.value == "" then Loaded(None, false)
    else match decode(data.value)
      case None => Loaded(None, true)
      case Some(parsed) =>
        if HasElementsArray(parsed) then
          var valid := Filter(Prop(parsed, "elements").value.items, IsValidStored);
          if |valid| > 0 then Loaded(Some(valid), false) else Loaded(None, true)
        else Loaded(None, true)
  }

  /** Every way `loadCanvasData` can end: nothing stored loads nothing and
      removes nothing; stored text that does not parse, or whose `elements` is
      not an array, is removed; otherwise the valid stored elements are loaded,
      all of them and in their order, when there is at least one, and the
      snapshot is removed when there is none. */
  lemma LoadCanvasDataCases(data: Option<string>, decode: string -> Option<Json>)
    ensures data.None? || data.value == "" ==> LoadCanvasData(data, decode) == Loaded(None, false)
    ensures data.Some? && data.value != "" && (decode(data.value).None? || !HasElementsArray(decode(data.value).value)) ==>
              LoadCanvasData(data, decode) == Loaded(None, true)
    ensures data.Some? && data.value != "" && decode(data.value).Some? && HasElementsArray(decode(data.value).value) ==>
              var items := Prop(decode(data.value).value, "elements").value.items;
              && ((exists k :: 0 <= k < |items| && IsValidStored(items[k])) ==>
                    LoadCanvasData(data, decode) == Loaded(Some(Filter(items, IsValidStored)), false))
              && ((forall k :: 0 <= k < |items| ==> !IsValidStored(items[k])) ==>
                    LoadCanvasData(data, decode) == Loaded(None, true))
  {
    if data.Some? && data.value != "" && decode(data.value).Some? && HasElementsArray(decode(data.value).value) {
      var items := Prop(decode(data.value).value, "elements").value.items;
      var valid := Filter(items, IsValidStored);
      if exists k :: 0 <= k < |items| && IsValidStored(items[k]) {
        var k :| 0 <= k < |items| && IsValidStored(items[k]);
        assert items[k] in valid;
        assert !(forall j :: 0 <= j < |items| ==> !IsValidStored(items[j]));
      } else {
        FilterNone(items, IsValidStored);
      }
    }
  }

  /** A stored snapshot whose elements are all valid loads back unchanged. */
  lemma LoadValidSnapshot(data: string, decode: string -> Option<Json>, items: seq<Json>)
    requires data != ""
    requires decode(data) == Some(JObj(map["elements" := JArr(items)]))
    requires |items| > 0 && forall k :: 0 <= k < |items| ==> IsValidStored(items[k])
    ensures LoadCanvasData(Some(data), decode) == Loaded(Some(items), false)
  {
    FilterAll(items, IsValidStored);
  }

  /** The wrapper's state: whether the drawing library has handed over its
      API, the scene it shows, and the snapshot saved in storage. */
  class ExcalidrawWrapper {
    var apiReady: bool
    var scene: seq<Element>
    var stored: Option<seq<Element>>

    constructor (apiReady: bool, scene: seq<Element>, stored: Option<seq<Element>>)
      ensures this.apiReady == apiReady && this.scene == scene && this.stored == stored
    {
      this.apiReady := apiReady;
      this.scene := scene;
      this.stored := stored;
    }

    /** `addElements(newElements)`; `suffix(k)` is the text generated for the
        k-th entry of the batch when it has to be renamed. */
    method AddElements(newElements: seq<Element>, suffix: nat -> string)
      modifies this
      ensures !old(apiReady) || newElements == [] ==> scene == old(scene)
      ensures old(apiReady) && newElements != [] ==>
                scene == old(scene) + Resolve(Ids(old(scene)), newElements, suffix, 0)
      ensures apiReady == old(apiReady) && stored == old(stored)
    {
      if !apiReady || |newElements| == 0 {
        return;
      }
      var currentElements := scene;
      var existingIds := Ids(currentElements);
      var elementsToAdd: seq<Element> := [];
      for k := 0 to |newElements|
        invariant elementsToAdd + Resolve(existingIds, newElements, suffix, k) ==
                  Resolve(Ids(currentElements), newElements, suffix, 0)
        invariant unchanged(this)
      {
        var el := newElements[k];
        var added := el;
        if el.id in existingIds {
          added := el.(id := Renamed(el.id, suffix, k));
        }
        ResolveHead(existingIds, newElements, suffix, k);
        ConcatAssoc(elementsToAdd, [added], Resolve(existingIds + {added.id}, newElements, suffix, k + 1));
        existingIds := existingIds + {added.id};
        elementsToAdd := elementsToAdd + [added];
      }
      if |elementsToAdd| > 0 {
        scene := currentElements + elementsToAdd;
      }
    }

    /** `clearCanvas()` */
    method ClearCanvas()
      modifies this
      ensures old(apiReady) ==> scene == [] && stored == None
      ensures !old(apiReady) ==> scene == old(scene) && stored == old(stored)
      ensures apiReady == old(apiReady)
    {
      if !apiReady {
        return;
      }
      scene := [];
      stored := None;
    }

    /** `getElements()`: the scene once the API is there, nothing before. */
    function GetElements(): (r: seq<Element>)
      reads this
      ensures apiReady ==> r == scene
      ensures !apiReady ==> r == []
    {
      if apiReady then scene else []
    }

    /** `handleChange(elements)`: saves and reports the elements not marked
        deleted. */
    method HandleChange(elements: seq<Element>) returns (active: seq<Element>)
      modifies this
      ensures active == ActiveElements(elements)
      ensures stored == Some(active)
      ensures apiReady == old(apiReady) && scene == old(scene)
    {
      active := ActiveElements(elements);
      stored := Some(active);
    }
  }
}
