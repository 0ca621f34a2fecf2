/** Finding the item list in a parsed hydration object: four fixed paths first,
    then a depth-limited search of the whole tree. */
module JsonSearch {
  import opened Common

  /** A parsed JSON value; an object lists its fields in iteration order. */
  datatype Json =
    | Leaf
    | Arr(items: seq<Json>)
    | Obj(fields: seq<Field>)

  datatype Field = Field(name: string, value: Json)

  const MAX_DEPTH := 10

  function Lookup(fields: seq<Field>, name: string): Option<Json> {
    if fields == [] then None
    else if fields[0].name == name then Some(fields[0].value)
    else Lookup(fields[1..], name)
  }

  function Get(value: Json, name: string): Option<Json> {
    if value.Obj? then Lookup(value.fields, name) else None
  }

  function Walk(root: Option<Json>, path: seq<string>): Option<Json>
    decreases |path|
  {
    if path == [] then root
    else if root.None? then None
    else Walk(Get(root.value, path[0]), path[1..])
  }

  /** A step of a path: a field's name or an array index. */
  datatype PathKey = Name(name: string) | Index(index: int)

  function Entry(value: Json, key: PathKey): Option<Json> {
    match key
    case Name(name) => Get(value, name)
    case Index(index) =>
      if value.Arr? && 0 <= index < |value.items| then Some(value.items[index]) else None
  }

  function Follow(root: Option<Json>, path: seq<PathKey>): Option<Json>
    decreases |path|
  {
    if path == [] then root
    else if root.None? then None
    else Follow(Entry(root.value, path[0]), path[1..])
  }

  method Dig(root: Json, path: seq<PathKey>) returns (value: Option<Json>)
    ensures value == Follow(Some(root), path)
  {
    value := Some(root);
    var i := 0;
    while i < |path|
      invariant 0 <= i <= |path|
      invariant Follow(Some(root), path) == Follow(value, path[i..])
    {
      assert path[i..][1..] == path[i + 1..];
      if path[i].Index? {
        if value.None? || !value.value.Arr? || path[i].index >= |value.value.items| {
          return None;
        }
        value := if path[i].index < 0 then None else Some(value.value.items[path[i].index]);
      } else {
        if value.None? || !value.value.Obj? {
          return None;
        }
        value := Get(value.value, path[i].name);
      }
      i := i + 1;
    }
  }

  function Names(path: seq<string>): seq<PathKey> {
    seq(|path|, i requires 0 <= i < |path| => Name(path[i]))
  }

  /** On names alone, which is all the item list lookups use, this is Walk. */
  lemma {:induction false} NamesWalk(root: Option<Json>, path: seq<string>)
    ensures Follow(root, Names(path)) == Walk(root, path)
    decreases |path|
  {
    if path != [] && root.Some? {
      assert Names(path)[1..] == Names(path[1..]);
      NamesWalk(Get(root.value, path[0]), path[1..]);
    }
  }

  function ArrayAt(value: Option<Json>): Option<seq<Json>> {
    if value.Some? && value.value.Arr? then Some(value.value.items) else None
  }

  /** The list a node carries: its field itemList is an object with an array content. */
  function Content(value: Json): Option<seq<Json>> {
    ArrayAt(Walk(Some(value), ["itemList", "content"]))
  }

  const ROUTES: seq<seq<string>> := [
    ["mods"],
    ["data", "mods"],
    ["root", "fields", "mods"],
    ["data", "root", "fields", "mods"]]

  /** The fixed paths, in order; each ends in itemList.content. */
  function FastItemList(root: Json): Option<seq<Json>> {
    FirstRoute(root, ROUTES)
  }

  function FirstRoute(root: Json, routes: seq<seq<string>>): Option<seq<Json>> {
    if routes == [] then None
    else
      var found := ArrayAt(Walk(Some(root), routes[0] + ["itemList", "content"]));
      if found.Some? then found else FirstRoute(root, routes[1..])
  }

  function FindItemList(value: Json, depth: nat): Option<seq<Json>>
    decreases value, 1
  {
    if depth > MAX_DEPTH then None
    else match value
      case Leaf => None
      case Arr(items) => FindInItems(value, items, depth + 1)
      case Obj(fields) =>
        var content := Content(value);
        if content.Some? then content else FindInFields(value, fields, depth + 1)
  }

  function FindInItems(ghost parent: Json, items: seq<Json>, depth: nat): Option<seq<Json>>
    requires forall i | 0 <= i < |items| :: items[i] < parent
    decreases parent, 0, |items|
  {
    if items == [] then None
    else
      var found := FindItemList(items[0], depth);
      if found.Some? then found else FindInItems(parent, items[1..], depth)
  }

  function FindInFields(ghost parent: Json, fields: seq<Field>, depth: nat): Option<seq<Json>>
    requires forall field | field in fields :: field.value < parent
    decreases parent, 0, |fields|
  {
    if fields == [] then None
    else
      var found := FindItemList(fields[0].value, depth);
      if found.Some? then found else FindInFields(parent, fields[1..], depth)
  }

  // ------------------------------------------------------ reference: paths

  /** A way down the tree: the index of an array item or the number of a field. */
  type Way = seq<nat>

  function Child(value: Json, k: nat): Option<Json> {
    match value
    case Leaf => None
    case Arr(items) => if k < |items| then Some(items[k]) else None
    case Obj(fields) => if k < |fields| then Some(fields[k].value) else None
  }

  function Down(value: Json, way: Way): Option<Json> {
    if way == [] then Some(value)
    else
      var child := Child(value, way[0]);
      if child.None? then None else Down(child.value, way[1..])
  }

  /** Some node at most `steps` levels down carries this list. */
  ghost predicate Carries(value: Json, steps: int, list: seq<Json>) {
    exists way: Way :: |way| <= steps && ListAt(value, way, list)
  }

  predicate ListAt(value: Json, way: Way, list: seq<Json>) {
    Down(value, way).Some? && Content(Down(value, way).value) == Some(list)
  }

  lemma {:induction false} FoundIsCarried(value: Json, depth: nat)
    ensures FindItemList(value, depth).Some? ==> Carries(value, MAX_DEPTH - depth, FindItemList(value, depth).value)
    decreases value, 1
  {
    var found := FindItemList(value, depth);
    if found.Some? {
      match value
      case Leaf =>
      case Arr(items) => FoundInItems(value, items, 0, depth + 1);
      case Obj(fields) =>
        if Content(value).Some? {
          assert ListAt(value, [], found.value);
        } else {
          FoundInFields(value, fields, 0, depth + 1);
        }
    }
  }

  lemma CarriedByChild(value: Json, k: nat, steps: int, list: seq<Json>)
    requires Child(value, k).Some? && Carries(Child(value, k).value, steps, list)
    ensures Carries(value, steps + 1, list)
  {
    var way: Way :| |way| <= steps && ListAt(Child(value, k).value, way, list);
    assert ([k] + way)[1..] == way;
    assert ListAt(value, [k] + way, list);
  }

  lemma {:induction false} FoundInItems(value: Json, items: seq<Json>, k: nat, depth: nat)
    requires value.Arr? && k <= |value.items| && items == value.items[k..]
    ensures FindInItems(value, items, depth).Some?
            ==> Carries(value, MAX_DEPTH - depth + 1, FindInItems(value, items, depth).value)
    decreases value, 0, |items|
  {
    if items != [] {
      FoundIsCarried(items[0], depth);
      if FindItemList(items[0], depth).Some? {
        CarriedByChild(value, k, MAX_DEPTH - depth, FindItemList(items[0], depth).value);
      } else {
        FoundInItems(value, items[1..], k + 1, depth);
      }
    }
  }

  lemma {:induction false} FoundInFields(value: Json, fields: seq<Field>, k: nat, depth: nat)
    requires value.Obj? && k <= |value.fields| && fields == value.fields[k..]
    ensures FindInFields(value, fields, depth).Some?
            ==> Carries(value, MAX_DEPTH - depth + 1, FindInFields(value, fields, depth).value)
    decreases value, 0, |fields|
  {
    if fields != [] {
      assert fields[0] in value.fields;
      FoundIsCarried(fields[0].value, depth);
      if FindItemList(fields[0].value, depth).Some? {
        CarriedByChild(value, k, MAX_DEPTH - depth, FindItemList(fields[0].value, depth).value);
      } else {
        FoundInFields(value, fields[1..], k + 1, depth);
      }
    }
  }

  lemma {:induction false} SearchMeets(value: Json, depth: nat, way: Way, list: seq<Json>)
    requires ListAt(value, way, list) && depth + |way| <= MAX_DEPTH
    ensures FindItemList(value, depth).Some?
    decreases value, 1
  {
    if Content(value).Some? {
    } else {
      var child := Child(value, way[0]).value;
      if value.Arr? {
        SearchMeets(child, depth + 1, way[1..], list);
        ItemMet(value, value.items, way[0], depth + 1);
      } else {
        assert value.fields[way[0]] in value.fields;
        SearchMeets(child, depth + 1, way[1..], list);
        FieldMet(value, value.fields, way[0], depth + 1);
      }
    }
  }

  lemma {:induction false} ItemMet(parent: Json, items: seq<Json>, k: nat, depth: nat)
    requires forall i | 0 <= i < |items| :: items[i] < parent
    requires k < |items| && FindItemList(items[k], depth).Some?
    ensures FindInItems(parent, items, depth).Some?
    decreases |items|
  {
    if k > 0 {
      ItemMet(parent, items[1..], k - 1, depth);
    }
  }

  lemma {:induction false} FieldMet(parent: Json, fields: seq<Field>, k: nat, depth: nat)
    requires forall field | field in fields :: field.value < parent
    requires k < |fields| && FindItemList(fields[k].value, depth).Some?
    ensures FindInFields(parent, fields, depth).Some?
    decreases |fields|
  {
    if k > 0 {
      FieldMet(parent, fields[1..], k - 1, depth);
    }
  }

  /** The search is sound and complete down to its depth limit. */
  lemma SearchIsExact(root: Json)
    ensures FindItemList(root, 0).Some? <==> exists list :: Carries(root, MAX_DEPTH, list)
    ensures FindItemList(root, 0).Some? ==> Carries(root, MAX_DEPTH, FindItemList(root, 0).value)
  {
    FoundIsCarried(root, 0);
    if list :| Carries(root, MAX_DEPTH, list) {
      var way: Way :| |way| <= MAX_DEPTH && ListAt(root, way, list);
      SearchMeets(root, 0, way, list);
    }
  }

  // ---------------------------------------------- the first of several lists

  /** Pre-order: a node before those below it, and earlier branches before later ones. */
  predicate NotAfter(a: Way, b: Way) {
    a == [] || (b != [] && (a[0] < b[0] || (a[0] == b[0] && NotAfter(a[1..], b[1..]))))
  }

  predicate CarriesAt(value: Json, way: Way) {
    Down(value, way).Some? && Content(Down(value, way).value).Some?
  }

  /** The list stands at this node, and no node that the depth limit admits carries
      one before it in pre-order. */
  ghost predicate FirstAt(value: Json, steps: int, way: Way, list: seq<Json>) {
    && |way| <= steps && ListAt(value, way, list)
    && forall other: Way | |other| <= steps && CarriesAt(value, other) :: NotAfter(way, other)
  }

  lemma {:induction false} FirstItem(parent: Json, items: seq<Json>, depth: nat) returns (k: nat)
    requires forall i | 0 <= i < |items| :: items[i] < parent
    requires FindInItems(parent, items, depth).Some?
    ensures k < |items| && FindItemList(items[k], depth) == FindInItems(parent, items, depth)
    ensures forall j | 0 <= j < k :: FindItemList(items[j], depth).None?
    decreases |items|
  {
    if FindItemList(items[0], depth).Some? {
      k := 0;
    } else {
      k := FirstItem(parent, items[1..], depth);
      assert forall j | 0 < j <= k :: items[j] == items[1..][j - 1];
      k := k + 1;
    }
  }

  lemma {:induction false} FirstField(parent: Json, fields: seq<Field>, depth: nat) returns (k: nat)
    requires forall field | field in fields :: field.value < parent
    requires FindInFields(parent, fields, depth).Some?
    ensures k < |fields| && FindItemList(fields[k].value, depth) == FindInFields(parent, fields, depth)
    ensures forall j | 0 <= j < k :: FindItemList(fields[j].value, depth).None?
    decreases |fields|
  {
    if FindItemList(fields[0].value, depth).Some? {
      k := 0;
    } else {
      k := FirstField(parent, fields[1..], depth);
      assert forall j | 0 < j <= k :: fields[j] == fields[1..][j - 1];
      k := k + 1;
    }
  }

  /** If the search finds nothing below the branches before k, the first list below
      branch k is the first below the node. */
  lemma FirstInBranch(value: Json, k: nat, depth: nat, sub: Way, list: seq<Json>)
    requires Content(value).None? && Child(value, k).Some?
    requires FirstAt(Child(value, k).value, MAX_DEPTH - depth - 1, sub, list)
    requires forall j: nat | j < k && Child(value, j).Some? :: FindItemList(Child(value, j).value, depth + 1).None?
    ensures FirstAt(value, MAX_DEPTH - depth, [k] + sub, list)
  {
    var way := [k] + sub;
    assert way[1..] == sub;
    forall other: Way | |other| <= MAX_DEPTH - depth && CarriesAt(value, other) ensures NotAfter(way, other) {
      assert other != [];
      var child := Child(value, other[0]).value;
      assert CarriesAt(child, other[1..]);
      if other[0] < k {
        SearchMeets(child, depth + 1, other[1..], Content(Down(child, other[1..]).value).value);
      }
    }
  }

  lemma {:induction false} FindsFirst(value: Json, depth: nat) returns (way: Way)
    requires FindItemList(value, depth).Some?
    ensures FirstAt(value, MAX_DEPTH - depth, way, FindItemList(value, depth).value)
    decreases value
  {
    if Content(value).Some? {
      way := [];
    } else if value.Arr? {
      var k := FirstItem(value, value.items, depth + 1);
      way := FindsFirst(value.items[k], depth + 1);
      FirstInBranch(value, k, depth, way, FindItemList(value, depth).value);
      way := [k] + way;
    } else {
      var k := FirstField(value, value.fields, depth + 1);
      assert value.fields[k] in value.fields;
      way := FindsFirst(value.fields[k].value, depth + 1);
      FirstInBranch(value, k, depth, way, FindItemList(value, depth).value);
      way := [k] + way;
    }
  }

  lemma {:induction false} OneFirst(a: Way, b: Way)
    requires NotAfter(a, b) && NotAfter(b, a)
    ensures a == b
  {
    if a != [] {
      OneFirst(a[1..], b[1..]);
      assert a == [a[0]] + a[1..] && b == [b[0]] + b[1..];
    }
  }

  /** With several lists in the tree the search finds the first in pre-order, among
      those that the depth limit admits, and no other. */
  lemma SearchFindsFirst(root: Json, list: seq<Json>)
    ensures FindItemList(root, 0) == Some(list) <==> exists way :: FirstAt(root, MAX_DEPTH, way, list)
  {
    if FindItemList(root, 0) == Some(list) {
      var way := FindsFirst(root, 0);
    } else if way :| FirstAt(root, MAX_DEPTH, way, list) {
      SearchMeets(root, 0, way, list);
      var found := FindsFirst(root, 0);
      assert CarriesAt(root, way) && CarriesAt(root, found);
      OneFirst(way, found);
    }
  }

  /** The fixed lookup takes the first of these four that holds an array. */
  lemma FastFindsFirst(root: Json)
    ensures var a := ArrayAt(Walk(Some(root), ["mods", "itemList", "content"]));
            var b := ArrayAt(Walk(Some(root), ["data", "mods", "itemList", "content"]));
            var c := ArrayAt(Walk(Some(root), ["root", "fields", "mods", "itemList", "content"]));
            var d := ArrayAt(Walk(Some(root), ["data", "root", "fields", "mods", "itemList", "content"]));
            FastItemList(root) == if a.Some? then a else if b.Some? then b else if c.Some? then c else d
  {
    var tail := ["itemList", "content"];
    assert ROUTES[0] + tail == ["mods", "itemList", "content"];
    assert ROUTES[1] + tail == ["data", "mods", "itemList", "content"];
    assert ROUTES[2] + tail == ["root", "fields", "mods", "itemList", "content"];
    assert ROUTES[3] + tail == ["data", "root", "fields", "mods", "itemList", "content"];
    NextRoute(root, ROUTES[0], ROUTES[1..]);
    NextRoute(root, ROUTES[1], ROUTES[2..]);
    NextRoute(root, ROUTES[2], ROUTES[3..]);
    NextRoute(root, ROUTES[3], []);
    assert ROUTES == [ROUTES[0]] + ROUTES[1..] && ROUTES[1..] == [ROUTES[1]] + ROUTES[2..];
    assert ROUTES[2..] == [ROUTES[2]] + ROUTES[3..] && ROUTES[3..] == [ROUTES[3]] + [];
  }

  lemma NextRoute(root: Json, route: seq<string>, rest: seq<seq<string>>)
    ensures var found := ArrayAt(Walk(Some(root), route + ["itemList", "content"]));
            FirstRoute(root, [route] + rest) == if found.Some? then found else FirstRoute(root, rest)
  {
    assert ([route] + rest)[1..] == rest;
  }

  // --------------------------------------------------- fast against full

  /** A field is found by its name, and the first of that name. */
  lemma {:induction false} LookupIsChild(fields: seq<Field>, name: string) returns (k: nat)
    requires Lookup(fields, name).Some?
    ensures k < |fields| && fields[k].value == Lookup(fields, name).value
    ensures fields[k].name == name && forall j | 0 <= j < k :: fields[j].name != name
  {
    if fields[0].name == name {
      k := 0;
    } else {
      k := LookupIsChild(fields[1..], name);
      assert forall j | 0 < j <= k :: fields[j] == fields[1..][j - 1];
      k := k + 1;
    }
  }

  lemma {:induction false} LookupMissesNone(fields: seq<Field>, name: string)
    ensures Lookup(fields, name).None? <==> forall field | field in fields :: field.name != name
  {
    if fields != [] {
      LookupMissesNone(fields[1..], name);
      assert forall field :: field in fields <==> field == fields[0] || field in fields[1..];
    }
  }

  lemma {:induction false} WalkIsDown(root: Json, path: seq<string>) returns (way: Way)
    requires Walk(Some(root), path).Some?
    ensures |way| == |path| && Down(root, way) == Walk(Some(root), path)
  {
    if path == [] {
      way := [];
    } else {
      var next := Get(root, path[0]);
      var k := LookupIsChild(root.fields, path[0]);
      var rest := WalkIsDown(next.value, path[1..]);
      way := [k] + rest;
      assert way[1..] == rest;
    }
  }

  /** The branch that a step of a path takes: the item at that index, or the first
      field of that name. */
  predicate Takes(value: Json, key: PathKey, k: nat) {
    match key
    case Index(index) => value.Arr? && k == index
    case Name(name) =>
      value.Obj? && k < |value.fields| && value.fields[k].name == name
      && forall j | 0 <= j < k :: value.fields[j].name != name
  }

  /** The way follows the path, step by step. */
  predicate Along(value: Json, path: seq<PathKey>, way: Way)
    decreases |path|
  {
    if path == [] then way == []
    else
      && way != [] && Takes(value, path[0], way[0]) && Child(value, way[0]).Some?
      && Along(Child(value, way[0]).value, path[1..], way[1..])
  }

  /** What a path leads to is what stands at the end of a way along it; and whatever
      stands at the end of such a way the path leads to. */
  lemma {:induction false} FollowIsDown(root: Json, path: seq<PathKey>) returns (way: Way)
    requires Follow(Some(root), path).Some?
    ensures Along(root, path, way) && Down(root, way) == Follow(Some(root), path)
    decreases |path|
  {
    if path == [] {
      way := [];
    } else {
      var next := Entry(root, path[0]);
      if next.None? {
        FollowNothing(path[1..]);
        assert false;
      }
      var k := EntryIsChild(root, path[0]);
      var rest := FollowIsDown(next.value, path[1..]);
      way := [k] + rest;
      assert way[1..] == rest;
    }
  }

  lemma {:induction false} DownIsFollow(root: Json, path: seq<PathKey>, way: Way)
    requires Along(root, path, way)
    ensures Follow(Some(root), path).Some? && Follow(Some(root), path) == Down(root, way)
    decreases |path|
  {
    if path != [] {
      EntryOfTaken(root, path[0], way[0]);
      DownIsFollow(Child(root, way[0]).value, path[1..], way[1..]);
    }
  }

  lemma {:induction false} FollowNothing(path: seq<PathKey>)
    ensures Follow(None, path).None?
  {
  }

  lemma EntryIsChild(value: Json, key: PathKey) returns (k: nat)
    requires Entry(value, key).Some?
    ensures Takes(value, key, k) && Child(value, k) == Entry(value, key)
  {
    match key
    case Index(index) => k := index;
    case Name(name) => k := LookupIsChild(value.fields, name);
  }

  lemma EntryOfTaken(value: Json, key: PathKey, k: nat)
    requires Takes(value, key, k) && Child(value, k).Some?
    ensures Entry(value, key) == Child(value, k)
  {
    if key.Name? {
      LookupMissesNone(value.fields, key.name);
      assert value.fields[k] in value.fields;
      var first := LookupIsChild(value.fields, key.name);
      assert first == k;
    }
  }

  lemma {:induction false} WalkSplit(root: Option<Json>, a: seq<string>, b: seq<string>)
    ensures Walk(root, a + b) == Walk(Walk(root, a), b)
    decreases |a|
  {
    if a == [] {
      assert a + b == b;
    } else if root.Some? {
      assert (a + b)[1..] == a[1..] + b;
      WalkSplit(Get(root.value, a[0]), a[1..], b);
    } else {
      assert b == [] || Walk(None, b).None?;
    }
  }

  lemma {:induction false} RouteIsCarried(root: Json, routes: seq<seq<string>>)
    requires forall route | route in routes :: |route| <= MAX_DEPTH
    ensures FirstRoute(root, routes).Some? ==> Carries(root, MAX_DEPTH, FirstRoute(root, routes).value)
  {
    if routes != [] {
      var tail := ["itemList", "content"];
      var found := ArrayAt(Walk(Some(root), routes[0] + tail));
      assert routes[0] in routes;
      if found.Some? {
        WalkSplit(Some(root), routes[0], tail);
        var node := Walk(Some(root), routes[0]);
        var way := WalkIsDown(root, routes[0]);
        assert ListAt(root, way, found.value);
      } else {
        RouteIsCarried(root, routes[1..]);
      }
    }
  }

  /** Whenever a fixed path finds a list the search finds one too, and if the tree
      carries a single list within the depth limit both find that one. */
  lemma FastAgreesWithSearch(root: Json)
    ensures FastItemList(root).Some? ==> FindItemList(root, 0).Some?
    ensures FastItemList(root).Some?
            && (forall a, b | Carries(root, MAX_DEPTH, a) && Carries(root, MAX_DEPTH, b) :: a == b)
            ==> FindItemList(root, 0) == FastItemList(root)
  {
    RouteIsCarried(root, ROUTES);
    SearchIsExact(root);
  }

  /** fastAliItemList(root) ?? findAliItemList(root): a list is found exactly when
      the tree carries one within the depth limit. */
  lemma CombinedLookupIsExact(root: Json)
    ensures var found := if FastItemList(root).Some? then FastItemList(root) else FindItemList(root, 0);
            (found.Some? <==> exists list :: Carries(root, MAX_DEPTH, list))
            && (found.Some? ==> Carries(root, MAX_DEPTH, found.value))
  {
    RouteIsCarried(root, ROUTES);
    SearchIsExact(root);
  }

  function Carrier(list: seq<Json>): Json {
    Obj([Field("itemList", Obj([Field("content", Arr(list))]))])
  }

  /** With two lists in the tree the two lookups may disagree. */
  lemma TwoListsMayDiffer()
    ensures var root := Obj([Field("ads", Carrier([])), Field("mods", Carrier([Leaf]))]);
            FastItemList(root) == Some([Leaf]) && FindItemList(root, 0) == Some([])
  {
    var ads, mods := Carrier([]), Carrier([Leaf]);
    var root := Obj([Field("ads", ads), Field("mods", mods)]);
    var second := [Field("mods", mods)];
    assert root.fields[1..] == second && second[1..] == [];
    assert Lookup(second, "mods") == Some(mods) && Lookup(second, "itemList") == None;
    var tail := ["itemList", "content"];
    assert ROUTES[0] == ["mods"];
    WalkSplit(Some(root), ["mods"], tail);
    assert ["mods"][1..] == [];
    assert Walk(Some(root), ["mods"]) == Some(mods);
    assert FirstRoute(root, ROUTES) == Some([Leaf]);
    assert Get(root, "itemList").None?;
    assert tail[1..] == ["content"];
    assert Content(root).None?;
    assert FindItemList(ads, 1) == Some([]);
  }

}
