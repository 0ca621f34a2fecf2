/** Collecting product cards from several sources without repeats: the staged
    extraction, with its early exits and truncations, against one plain pass. */
module Listings {
  import opened Common

  // -------------------------------------------------- first occurrences

  /** The usable listings whose key is not in `seen` and did not occur before. */
  function Fresh(items: seq<Listing>, seen: set<Key>): seq<Listing> {
    if items == [] then []
    else if !Usable(items[0]) || KeyOf(items[0]) in seen then Fresh(items[1..], seen)
    else [items[0]] + Fresh(items[1..], seen + {KeyOf(items[0])})
  }

  function Unique(items: seq<Listing>): seq<Listing> {
    Fresh(items, {})
  }

  function Take<T>(s: seq<T>, n: int): (t: seq<T>)
    ensures t <= s && (n <= 0 ==> t == []) && (n > 0 ==> |t| == n || (|t| < n && t == s))
  {
    if n <= 0 then [] else if n < |s| then s[..n] else s
  }

  /** At most `limit` first occurrences; a limit below one still lets one through. */
  function Dedupe(items: seq<Listing>, limit: int): seq<Listing> {
    Take(Unique(items), if limit < 1 then 1 else limit)
  }

  method DedupeListings(listings: seq<Listing>, limit: int) returns (out: seq<Listing>)
    ensures out == Dedupe(listings, limit)
  {
    var seen: set<Key> := {};
    out := [];
    var i := 0;
    while i < |listings|
      invariant 0 <= i <= |listings|
      invariant out == [] || |out| < limit
      invariant Unique(listings) == out + Fresh(listings[i..], seen)
    {
      var item := listings[i];
      assert listings[i..][1..] == listings[i + 1..];
      i := i + 1;
      if !Usable(item) || KeyOf(item) in seen {
        continue;
      }
      seen := seen + {KeyOf(item)};
      ghost var before := out;
      out := out + [item];
      assert before + ([item] + Fresh(listings[i..], seen)) == out + Fresh(listings[i..], seen);
      if |out| >= limit {
        return;
      }
    }
  }

  function Keys(items: seq<Listing>): set<Key> {
    set item | item in items && Usable(item) :: KeyOf(item)
  }

  ghost predicate AllUsable(items: seq<Listing>) {
    forall item | item in items :: Usable(item)
  }

  ghost predicate DistinctKeys(items: seq<Listing>) {
    forall i, j | 0 <= i < j < |items| :: KeyOf(items[i]) != KeyOf(items[j])
  }

  lemma KeysConcat(a: seq<Listing>, b: seq<Listing>)
    ensures Keys(a + b) == Keys(a) + Keys(b)
  {
    forall item ensures item in a + b <==> item in a || item in b {}
  }

  lemma KeysHead(items: seq<Listing>)
    requires items != []
    ensures Keys(items) == Keys(items[1..]) + (if Usable(items[0]) then {KeyOf(items[0])} else {})
  {
    assert items == [items[0]] + items[1..];
    KeysConcat([items[0]], items[1..]);
  }

  /** What Fresh keeps: distinct keys, exactly the new ones. */
  lemma {:induction false} FreshMeaning(items: seq<Listing>, seen: set<Key>)
    ensures AllUsable(Fresh(items, seen)) && DistinctKeys(Fresh(items, seen))
    ensures Keys(Fresh(items, seen)) == Keys(items) - seen
  {
    if items != [] {
      KeysHead(items);
      if !Usable(items[0]) || KeyOf(items[0]) in seen {
        FreshMeaning(items[1..], seen);
      } else {
        var key := KeyOf(items[0]);
        var rest := Fresh(items[1..], seen + {key});
        FreshMeaning(items[1..], seen + {key});
        KeysConcat([items[0]], rest);
        assert Keys([items[0]]) == {key};
        forall i | 0 <= i < |rest| ensures KeyOf(rest[i]) != key {
          assert rest[i] in rest && KeyOf(rest[i]) in Keys(rest);
        }
      }
    }
  }

  lemma {:induction false} FreshConcat(a: seq<Listing>, b: seq<Listing>, seen: set<Key>)
    ensures Fresh(a + b, seen) == Fresh(a, seen) + Fresh(b, seen + Keys(a))
  {
    if a == [] {
      assert a + b == b && seen + Keys(a) == seen;
    } else {
      assert (a + b)[1..] == a[1..] + b;
      KeysHead(a);
      if !Usable(a[0]) || KeyOf(a[0]) in seen {
        FreshConcat(a[1..], b, seen);
        assert seen + Keys(a) == seen + Keys(a[1..]);
      } else {
        FreshConcat(a[1..], b, seen + {KeyOf(a[0])});
        assert seen + {KeyOf(a[0])} + Keys(a[1..]) == seen + Keys(a);
      }
    }
  }

  lemma {:induction false} FreshOfClean(items: seq<Listing>, seen: set<Key>)
    requires AllUsable(items) && DistinctKeys(items) && Keys(items) !! seen
    ensures Fresh(items, seen) == items
  {
    if items != [] {
      var rest := items[1..];
      KeysHead(items);
      assert items[0] in items;
      forall item | item in rest ensures Usable(item) && KeyOf(item) != KeyOf(items[0]) {
        var i :| 0 <= i < |rest| && rest[i] == item;
        assert items[i + 1] == item;
      }
      forall i, j | 0 <= i < j < |rest| ensures KeyOf(rest[i]) != KeyOf(rest[j]) {
        assert KeyOf(items[i + 1]) != KeyOf(items[j + 1]);
      }
      FreshOfClean(rest, seen + {KeyOf(items[0])});
    }
  }

  lemma UniqueConcat(a: seq<Listing>, b: seq<Listing>)
    ensures Unique(a + b) == Unique(a) + Fresh(b, Keys(a))
  {
    FreshConcat(a, b, {});
    assert {} + Keys(a) == Keys(a);
  }

  /** First occurrences, position by position: a listing is kept, as it is and in its
      place, exactly if it is usable and no usable one before it has its key. */
  lemma UniqueAt(items: seq<Listing>, i: nat)
    requires i < |items|
    ensures Unique([]) == []
    ensures Unique(items[..i + 1])
            == Unique(items[..i])
               + (if Usable(items[i]) && forall j | 0 <= j < i && Usable(items[j]) :: KeyOf(items[j]) != KeyOf(items[i])
                  then [items[i]] else [])
  {
    var front, one := items[..i], [items[i]];
    assert items[..i + 1] == front + one && one[1..] == [];
    UniqueConcat(front, one);
    assert Usable(items[i]) && KeyOf(items[i]) in Keys(front) ==>
      exists j :: 0 <= j < i && Usable(items[j]) && KeyOf(items[j]) == KeyOf(items[i]) by {
      if Usable(items[i]) && KeyOf(items[i]) in Keys(front) {
        var item :| item in front && Usable(item) && KeyOf(item) == KeyOf(items[i]);
        var j :| 0 <= j < i && front[j] == item;
        assert items[j] == item;
      }
    }
    forall j | 0 <= j < i && Usable(items[j]) ensures KeyOf(items[j]) in Keys(front) {
      assert items[j] == front[j];
    }
  }

  lemma UniqueMeaning(items: seq<Listing>)
    ensures AllUsable(Unique(items)) && DistinctKeys(Unique(items)) && Keys(Unique(items)) == Keys(items)
  {
    FreshMeaning(items, {});
  }

  lemma TakeClean(items: seq<Listing>, n: nat)
    requires AllUsable(items) && DistinctKeys(items)
    ensures AllUsable(Take(items, n)) && DistinctKeys(Take(items, n)) && Unique(Take(items, n)) == Take(items, n)
  {
    var t := Take(items, n);
    forall item | item in t ensures item in items {
      var i :| 0 <= i < |t| && t[i] == item;
      assert items[i] == item;
    }
    FreshOfClean(t, {});
  }

  /** Cutting an intermediate result short does not change the final one. */
  lemma DedupeInStages(a: seq<Listing>, b: seq<Listing>, n: nat)
    requires n >= 1
    ensures Dedupe(Dedupe(a, n) + b, n) == Dedupe(a + b, n)
  {
    var t := Dedupe(a, n);
    UniqueMeaning(a);
    TakeClean(Unique(a), n);
    UniqueConcat(t, b);
    UniqueConcat(a, b);
    assert |Unique(a)| <= n ==> Keys(t) == Keys(a);
  }

  // ------------------------------------------------------- counting keys

  lemma {:induction false} DistinctCount(items: seq<Listing>)
    requires AllUsable(items) && DistinctKeys(items)
    ensures |Keys(items)| == |items|
  {
    if items != [] {
      var rest := items[1..];
      KeysHead(items);
      assert items[0] in items;
      forall item | item in rest ensures Usable(item) && KeyOf(item) != KeyOf(items[0]) {
        var i :| 0 <= i < |rest| && rest[i] == item;
        assert items[i + 1] == item;
      }
      forall i, j | 0 <= i < j < |rest| ensures KeyOf(rest[i]) != KeyOf(rest[j]) {
        assert KeyOf(items[i + 1]) != KeyOf(items[j + 1]);
      }
      DistinctCount(rest);
    }
  }

  lemma UniqueCount(items: seq<Listing>)
    ensures |Unique(items)| == |Keys(items)|
  {
    UniqueMeaning(items);
    DistinctCount(Unique(items));
  }

  /** n distinct listings leave at least n keys, whatever stood before them. */
  lemma Pigeonhole(before: seq<Listing>, items: seq<Listing>, n: nat)
    requires AllUsable(items) && DistinctKeys(items) && |items| > n
    ensures |Unique(before + Take(items, n))| >= n
  {
    TakeClean(items, n);
    DistinctCount(Take(items, n));
    KeysConcat(before, Take(items, n));
    SubsetCount(Keys(Take(items, n)), Keys(before + Take(items, n)));
    UniqueCount(before + Take(items, n));
  }

  lemma LongEnough(a: seq<Listing>, b: seq<Listing>, n: nat)
    requires n >= 1 && |Unique(a)| >= n
    ensures Dedupe(a + b, n) == Dedupe(a, n)
  {
    UniqueConcat(a, b);
  }

  lemma TruncateDistinct(before: seq<Listing>, items: seq<Listing>, n: nat)
    requires n >= 1 && AllUsable(items) && DistinctKeys(items)
    ensures Dedupe(before + Take(items, n), n) == Dedupe(before + items, n)
  {
    if |items| > n {
      Pigeonhole(before, items, n);
      LongEnough(before + items[..n], items[n..], n);
      assert before + items == before + items[..n] + items[n..];
    }
  }

  // ---------------------------------------------------- staged extraction

  /** The three sources in the order they are tried, each cut to the limit, with
      an exit as soon as the limit is reached. */
  function Staged(init: seq<Listing>, run: seq<Listing>, dom: seq<Listing>, n: nat): seq<Listing> {
    if |Take(init, n)| >= n then Dedupe(Take(init, n), n)
    else
      var structured := Dedupe(Take(init, n) + Take(run, n), n);
      if |structured| >= n then structured else Dedupe(structured + Take(dom, n), n)
  }

  function OneShot(init: seq<Listing>, run: seq<Listing>, dom: seq<Listing>, n: nat): seq<Listing> {
    Dedupe(init + run + dom, n)
  }

  /** The structured sources lose nothing when cut: no repeat inside the first
      `n` of a source costs a key that comes later in it. */
  predicate NothingLost(init: seq<Listing>, run: seq<Listing>, n: nat) {
    if |init| >= n then |Keys(Take(init, n))| == n
    else |Keys(init + Take(run, n))| >= n || Keys(run) <= Keys(init + Take(run, n))
  }

  /** The same, said of the results: the cut sources fill the limit or lead to the
      same first occurrences. */
  predicate SameWhenCut(init: seq<Listing>, run: seq<Listing>, n: nat) {
    if |init| >= n then |Unique(Take(init, n))| == n
    else |Unique(init + Take(run, n))| >= n || Unique(init + run) == Unique(init + Take(run, n))
  }

  lemma NothingLostMeans(init: seq<Listing>, run: seq<Listing>, n: nat)
    ensures NothingLost(init, run, n) <==> SameWhenCut(init, run, n)
  {
    if |init| >= n {
      UniqueCount(Take(init, n));
    } else {
      UniqueCount(init + Take(run, n));
      TailAddsNothing(init, Take(run, n), if n < |run| then run[n..] else []);
      assert run == Take(run, n) + (if n < |run| then run[n..] else []);
    }
  }

  lemma TailAddsNothing(init: seq<Listing>, head: seq<Listing>, tail: seq<Listing>)
    ensures Keys(head + tail) <= Keys(init + head) <==> Unique(init + (head + tail)) == Unique(init + head)
  {
    var x := init + head;
    assert init + (head + tail) == x + tail;
    KeysConcat(init, head);
    KeysConcat(head, tail);
    TailAddsKeys(x, tail);
  }

  lemma TailAddsKeys(x: seq<Listing>, tail: seq<Listing>)
    ensures Keys(tail) <= Keys(x) <==> Unique(x + tail) == Unique(x)
  {
    var more := Fresh(tail, Keys(x));
    UniqueConcat(x, tail);
    FreshMeaning(tail, Keys(x));
    DistinctCount(more);
    if Keys(tail) <= Keys(x) {
      assert Keys(more) == {};
      assert Unique(x) + more == Unique(x);
    } else {
      var key :| key in Keys(tail) && key !in Keys(x);
      SubsetCount({key}, Keys(more));
      assert |Unique(x) + more| > |Unique(x)|;
    }
  }

  ghost predicate Agree(init: seq<Listing>, run: seq<Listing>, n: nat) {
    forall dom | AllUsable(dom) && DistinctKeys(dom) :: Staged(init, run, dom, n) == OneShot(init, run, dom, n)
  }

  lemma StagedWhenFull(head: seq<Listing>, rest: seq<Listing>, n: nat)
    requires n >= 1 && |Unique(head)| >= n
    ensures Dedupe(head + rest, n) == Dedupe(head, n) && |Dedupe(head, n)| == n
  {
    LongEnough(head, rest, n);
  }

  lemma StagedToTheEnd(init: seq<Listing>, run: seq<Listing>, dom: seq<Listing>, n: nat)
    requires 1 <= n && |init| < n && |Unique(init + Take(run, n))| < n
    requires Unique(init + run) == Unique(init + Take(run, n)) && AllUsable(dom) && DistinctKeys(dom)
    ensures Staged(init, run, dom, n) == OneShot(init, run, dom, n)
  {
    var x := init + Take(run, n);
    DedupeInStages(x, Take(dom, n), n);
    TruncateDistinct(x, dom, n);
    UniqueConcat(x, dom);
    UniqueConcat(init + run, dom);
    UniqueMeaning(x);
    UniqueMeaning(init + run);
  }

  lemma StagedWhenNothingLost(init: seq<Listing>, run: seq<Listing>, dom: seq<Listing>, n: nat)
    requires n >= 1 && NothingLost(init, run, n)
    requires AllUsable(dom) && DistinctKeys(dom)
    ensures Staged(init, run, dom, n) == OneShot(init, run, dom, n)
  {
    NothingLostMeans(init, run, n);
    var x := init + Take(run, n);
    if |init| >= n {
      var head := Take(init, n);
      StagedWhenFull(head, init[n..] + run + dom, n);
      assert init + run + dom == head + (init[n..] + run + dom);
    } else if |Unique(x)| >= n {
      var tail := if n < |run| then run[n..] else [];
      StagedWhenFull(x, tail + dom, n);
      assert init + run + dom == x + (tail + dom);
    } else {
      StagedToTheEnd(init, run, dom, n);
    }
  }

  /** A listing under a key that occurs in none of the given ones. */
  lemma {:induction false} Newcomer(items: seq<Listing>) returns (item: Listing)
    ensures Usable(item) && KeyOf(item) !in Keys(items)
    ensures forall x | x in items :: |x.externalId| < |item.externalId|
  {
    if items == [] {
      item := Listing("aliexpress", "1", "title", "url", "", "", None, None, None, "", None, None, None, None, None);
    } else {
      item := Newcomer(items[1..]);
      item := item.(externalId := item.externalId + items[0].externalId);
      KeysHead(items);
      forall x | x in items ensures |x.externalId| < |item.externalId| {
        assert x == items[0] || x in items[1..];
      }
    }
  }

  /** The first source fills the limit with repeats. */
  lemma LostInFirst(init: seq<Listing>, run: seq<Listing>, n: nat) returns (dom: seq<Listing>)
    requires 1 <= n <= |init| && |Unique(Take(init, n))| != n
    ensures AllUsable(dom) && DistinctKeys(dom)
    ensures |Staged(init, run, dom, n)| < |OneShot(init, run, dom, n)|
  {
    var head := Take(init, n);
    UniqueCountAtMost(head);
    var item := Newcomer(init + run);
    dom := [item];
    UniqueConcat(init + run, dom);
    assert Fresh(dom, Keys(init + run)) == dom by { assert dom[1..] == []; }
    UniqueConcat(head, init[n..] + run);
    assert init + run == head + (init[n..] + run);
  }

  /** The second source is cut before a product that would have been new. */
  lemma LostInSecond(init: seq<Listing>, run: seq<Listing>, n: nat)
    requires |init| < n && |Unique(init + Take(run, n))| < n
    requires Unique(init + run) != Unique(init + Take(run, n))
    ensures |Staged(init, run, [], n)| < |OneShot(init, run, [], n)|
  {
    var x := init + Take(run, n);
    UniqueMeaning(x);
    TakeClean(Unique(x), n);
    assert Dedupe(x, n) + [] == Unique(x);
    assert init + run + [] == init + run;
    var tail := if n < |run| then run[n..] else [];
    assert init + run == x + tail;
    UniqueConcat(x, tail);
  }

  lemma LostShows(init: seq<Listing>, run: seq<Listing>, n: nat) returns (dom: seq<Listing>)
    requires n >= 1 && !NothingLost(init, run, n)
    ensures AllUsable(dom) && DistinctKeys(dom)
    ensures |Staged(init, run, dom, n)| < |OneShot(init, run, dom, n)|
  {
    NothingLostMeans(init, run, n);
    if |init| >= n {
      dom := LostInFirst(init, run, n);
    } else {
      dom := [];
      LostInSecond(init, run, n);
    }
  }

  lemma {:induction false} FreshCountAtMost(items: seq<Listing>, seen: set<Key>)
    ensures |Fresh(items, seen)| <= |items|
  {
    if items != [] {
      FreshCountAtMost(items[1..], seen);
      FreshCountAtMost(items[1..], seen + {KeyOf(items[0])});
    }
  }

  lemma UniqueCountAtMost(items: seq<Listing>)
    ensures |Unique(items)| <= |items|
  {
    FreshCountAtMost(items, {});
  }

  /** The staged extraction is the one-shot one, for every page body, if and only
      if cutting the structured sources loses nothing. */
  lemma StagedIsOneShotExactly(init: seq<Listing>, run: seq<Listing>, n: nat)
    requires n >= 1
    ensures Agree(init, run, n) <==> NothingLost(init, run, n)
  {
    if NothingLost(init, run, n) {
      forall dom | AllUsable(dom) && DistinctKeys(dom)
        ensures Staged(init, run, dom, n) == OneShot(init, run, dom, n)
      {
        StagedWhenNothingLost(init, run, dom, n);
      }
    } else {
      var dom := LostShows(init, run, n);
    }
  }

  /** Sources that list each product once lose nothing. */
  lemma DistinctSourcesLoseNothing(init: seq<Listing>, run: seq<Listing>, n: nat)
    requires n >= 1 && AllUsable(init) && DistinctKeys(init) && AllUsable(run) && DistinctKeys(run)
    ensures NothingLost(init, run, n)
  {
    NothingLostMeans(init, run, n);
    TakeClean(init, n);
    if |init| < n && |run| > n {
      Pigeonhole(init, run, n);
    }
  }

  const X := Listing("aliexpress", "1", "title", "url", "", "", None, None, None, "", None, None, None, None, None)
  const Y := X.(externalId := "2")

  /** A first source that names a product twice before the limit costs the page a
      product that it names later. */
  lemma RepeatLosesProduct()
    ensures !NothingLost([X, X, Y], [], 2)
    ensures Staged([X, X, Y], [], [], 2) == [X] && OneShot([X, X, Y], [], [], 2) == [X, Y]
  {
    var kx, ky := KeyOf(X), KeyOf(Y);
    assert kx.externalId[0] != ky.externalId[0];
    assert [X, X][1..] == [X] && [X, X, Y][1..] == [X, Y] && [X, Y][1..] == [Y] && [X][1..] == [] && [Y][1..] == [];
    assert Fresh([Y], {} + {kx}) == [Y] && Fresh([X, Y], {} + {kx}) == [Y];
    assert Fresh([X], {} + {kx}) == [];
    assert Unique([X, X]) == [X] && Unique([X, X, Y]) == [X, Y];
    assert Take([X, X, Y], 2) == [X, X];
    assert Keys([X, X]) == {kx};
    assert [X, X, Y] + [] + [] == [X, X, Y];
  }

  // ------------------------------------------------------------ the sources

  function Parsed(raw: seq<Option<Listing>>): seq<Listing> {
    if raw == [] then []
    else if raw[0].None? then Parsed(raw[1..])
    else [raw[0].value] + Parsed(raw[1..])
  }

  lemma {:induction false} ParsedConcat(a: seq<Option<Listing>>, b: seq<Option<Listing>>)
    ensures Parsed(a + b) == Parsed(a) + Parsed(b)
  {
    if a == [] {
      assert a + b == b;
    } else {
      assert (a + b)[1..] == a[1..] + b;
      ParsedConcat(a[1..], b);
    }
  }

  /** Position by position: an item that could be read is kept in its place, another
      one is passed over, and neither ends the list. */
  lemma ParsedAt(raw: seq<Option<Listing>>, i: nat)
    requires i < |raw|
    ensures Parsed([]) == []
    ensures Parsed(raw[..i + 1]) == Parsed(raw[..i]) + (if raw[i].Some? then [raw[i].value] else [])
  {
    assert raw[..i + 1] == raw[..i] + [raw[i]] && [raw[i]][1..] == [];
    ParsedConcat(raw[..i], [raw[i]]);
  }

  /** The loop over a structured item list; a raw item without id or title gives None. */
  method AliStructuredListings(raw: seq<Option<Listing>>, limit: nat) returns (out: seq<Listing>)
    ensures out == Take(Parsed(raw), limit)
  {
    out := [];
    var i := 0;
    while i < |raw|
      invariant 0 <= i <= |raw| && |out| <= limit
      invariant Parsed(raw) == out + Parsed(raw[i..])
    {
      if |out| >= limit {
        break;
      }
      assert raw[i..][1..] == raw[i + 1..];
      if raw[i].Some? {
        assert out + ([raw[i].value] + Parsed(raw[i + 1..])) == out + [raw[i].value] + Parsed(raw[i + 1..]);
        out := out + [raw[i].value];
      }
      i := i + 1;
    }
  }

  /** A link on the page: the product id its address names, if any, and the listing
      its card yields, if it has a title. */
  datatype Card = Card(id: Option<string>, listing: Option<Listing>)

  /** An id counts as seen even when its card had no title. */
  function FromCards(cards: seq<Card>, seen: set<string>): seq<Listing> {
    if cards == [] then []
    else if cards[0].id.None? || cards[0].id.value in seen then FromCards(cards[1..], seen)
    else
      (if cards[0].listing.Some? then [cards[0].listing.value] else [])
      + FromCards(cards[1..], seen + {cards[0].id.value})
  }

  function IdsOf(cards: seq<Card>): set<string> {
    set card | card in cards && card.id.Some? :: card.id.value
  }

  lemma {:induction false} FromCardsConcat(a: seq<Card>, b: seq<Card>, seen: set<string>)
    ensures FromCards(a + b, seen) == FromCards(a, seen) + FromCards(b, seen + IdsOf(a))
  {
    if a == [] {
      assert a + b == b && seen + IdsOf(a) == seen;
    } else {
      var rest := a[1..];
      assert (a + b)[1..] == rest + b;
      assert forall card :: card in a <==> card == a[0] || card in rest;
      var more := if a[0].id.Some? then seen + {a[0].id.value} else seen;
      assert seen + IdsOf(a) == more + IdsOf(rest);
      if a[0].id.Some? && a[0].id.value in seen {
        assert more == seen;
      }
      FromCardsConcat(rest, b, more);
    }
  }

  /** Position by position: a card is kept in its place exactly if its link names a
      product that no link before it has named, and it has a title; no card ends
      the list. */
  lemma FromCardsAt(cards: seq<Card>, i: nat)
    requires i < |cards|
    ensures FromCards([], {}) == []
    ensures FromCards(cards[..i + 1], {})
            == FromCards(cards[..i], {})
               + (if cards[i].id.Some? && cards[i].listing.Some? && forall j | 0 <= j < i :: cards[j].id != cards[i].id
                  then [cards[i].listing.value] else [])
  {
    var front, one := cards[..i], [cards[i]];
    assert cards[..i + 1] == front + one && one[1..] == [];
    FromCardsConcat(front, one, {});
    if cards[i].id.Some? {
      assert cards[i].id.value in IdsOf(front) <==> !forall j | 0 <= j < i :: cards[j].id != cards[i].id by {
        forall j | 0 <= j < i && cards[j].id == cards[i].id ensures cards[i].id.value in IdsOf(front) {
          assert front[j] in front;
        }
        if cards[i].id.value in IdsOf(front) {
          var card :| card in front && card.id == cards[i].id;
          var j :| 0 <= j < i && front[j] == card;
          assert cards[j].id == cards[i].id;
        }
      }
    }
    assert {} + IdsOf(front) == IdsOf(front);
    assert FromCards([], {} + IdsOf(front) + (if cards[i].id.Some? then {cards[i].id.value} else {})) == [];
  }

  predicate GoodCard(card: Card) {
    card.listing.Some? ==>
      card.id == Some(card.listing.value.externalId) && Usable(card.listing.value)
      && card.listing.value.marketplace == "aliexpress"
  }

  ghost predicate GoodCards(cards: seq<Card>) {
    forall card | card in cards :: GoodCard(card)
  }

  method AliDOM(cards: seq<Card>, limit: nat) returns (out: seq<Listing>)
    ensures out == Take(FromCards(cards, {}), limit)
  {
    out := [];
    var seen: set<string> := {};
    var i := 0;
    while i < |cards|
      invariant 0 <= i <= |cards| && |out| <= limit
      invariant FromCards(cards, {}) == out + FromCards(cards[i..], seen)
    {
      if |out| >= limit {
        break;
      }
      var card := cards[i];
      assert cards[i..][1..] == cards[i + 1..];
      i := i + 1;
      if card.id.None? || card.id.value in seen {
        continue;
      }
      seen := seen + {card.id.value};
      if card.listing.None? {
        assert [] + FromCards(cards[i..], seen) == FromCards(cards[i..], seen);
        continue;
      }
      ghost var rest := FromCards(cards[i..], seen);
      assert out + ([card.listing.value] + rest) == out + [card.listing.value] + rest;
      out := out + [card.listing.value];
    }
  }

  lemma {:induction false} CardsAreDistinct(cards: seq<Card>, seen: set<string>)
    requires GoodCards(cards)
    ensures var out := FromCards(cards, seen);
            AllUsable(out) && DistinctKeys(out) && forall item | item in out :: item.externalId !in seen
  {
    if cards != [] {
      var rest := cards[1..];
      assert GoodCard(cards[0]) && forall card | card in rest :: card in cards;
      if cards[0].id.None? || cards[0].id.value in seen {
        CardsAreDistinct(rest, seen);
      } else {
        CardsAreDistinct(rest, seen + {cards[0].id.value});
        var tail := FromCards(rest, seen + {cards[0].id.value});
        if cards[0].listing.Some? {
          var out := [cards[0].listing.value] + tail;
          forall j | 0 < j < |out| ensures KeyOf(out[0]) != KeyOf(out[j]) {
            assert out[j] in tail;
          }
        } else {
          assert [] + tail == tail;
        }
      }
    }
  }

  method ParseAliExpress(init: seq<Option<Listing>>, run: seq<Option<Listing>>, cards: seq<Card>, limit: nat)
    returns (out: seq<Listing>)
    ensures out == Staged(Parsed(init), Parsed(run), FromCards(cards, {}), limit)
    ensures GoodCards(cards) && limit >= 1 && NothingLost(Parsed(init), Parsed(run), limit)
            ==> out == OneShot(Parsed(init), Parsed(run), FromCards(cards, {}), limit)
  {
    if GoodCards(cards) && limit >= 1 && NothingLost(Parsed(init), Parsed(run), limit) {
      CardsAreDistinct(cards, {});
      StagedWhenNothingLost(Parsed(init), Parsed(run), FromCards(cards, {}), limit);
    }
    var initData := AliStructuredListings(init, limit);
    if |initData| >= limit {
      out := DedupeListings(initData, limit);
      return;
    }
    var runParams := AliStructuredListings(run, limit);
    var structured := DedupeListings(initData + runParams, limit);
    if |structured| >= limit {
      return structured;
    }
    var dom := AliDOM(cards, limit);
    out := DedupeListings(structured + dom, limit);
  }

  // ------------------------------------------------------------ the result

  /** What every marketplace parser returns for a limit of at least one. */
  ghost predicate ParserOutput(items: seq<Listing>, limit: nat) {
    |items| <= limit && AllUsable(items) && DistinctKeys(items)
  }

  function Merge(primary: seq<Listing>, secondary: seq<Listing>, limit: nat): seq<Listing> {
    Dedupe(primary + secondary, limit)
  }

  lemma DedupeIsParserOutput(items: seq<Listing>, limit: nat)
    requires limit >= 1
    ensures ParserOutput(Dedupe(items, limit), limit)
  {
    UniqueMeaning(items);
    TakeClean(Unique(items), limit);
  }

  /** The listings under keys that are not among the given ones, in order. */
  function Without(items: seq<Listing>, keys: set<Key>): seq<Listing> {
    if items == [] then []
    else
      var front, last := Without(items[..|items| - 1], keys), items[|items| - 1];
      if KeyOf(last) in keys then front else front + [last]
  }

  lemma DistinctFront(items: seq<Listing>)
    requires items != [] && AllUsable(items) && DistinctKeys(items)
    ensures var front, last := items[..|items| - 1], items[|items| - 1];
            AllUsable(front) && DistinctKeys(front) && Usable(last) && KeyOf(last) !in Keys(front)
  {
    var front, last := items[..|items| - 1], items[|items| - 1];
    assert last in items;
    forall item | item in front ensures Usable(item) && KeyOf(item) != KeyOf(last) {
      var i :| 0 <= i < |front| && front[i] == item;
      assert items[i] == item;
    }
  }

  lemma FreshOfOne(item: Listing, seen: set<Key>)
    requires Usable(item)
    ensures Fresh([item], seen) == if KeyOf(item) in seen then [] else [item]
  {
    assert [item][1..] == [];
  }

  lemma {:induction false} FreshOfDistinct(items: seq<Listing>, keys: set<Key>)
    requires AllUsable(items) && DistinctKeys(items)
    ensures Fresh(items, keys) == Without(items, keys)
  {
    if items != [] {
      var front, last := items[..|items| - 1], items[|items| - 1];
      DistinctFront(items);
      FreshOfDistinct(front, keys);
      FreshConcat(front, [last], keys);
      FreshOfOne(last, keys + Keys(front));
      assert items == front + [last];
    }
  }

  /** The primary list comes first and whole; of the secondary one exactly the new
      products follow, as they are and in order, as far as the limit allows. */
  lemma MergeKeepsPrimary(primary: seq<Listing>, secondary: seq<Listing>, limit: nat)
    requires limit >= 1 && ParserOutput(primary, limit) && ParserOutput(secondary, limit)
    ensures var merged, all := Merge(primary, secondary, limit), primary + Without(secondary, Keys(primary));
            ParserOutput(merged, limit) && primary <= merged
            && merged <= all && (|merged| == limit || merged == all)
            && (|merged| < limit ==> Keys(merged) == Keys(primary) + Keys(secondary))
            && (merged == [] <==> primary == [] && secondary == [])
  {
    DedupeIsParserOutput(primary + secondary, limit);
    UniqueConcat(primary, secondary);
    FreshOfClean(primary, {});
    FreshOfDistinct(secondary, Keys(primary));
    UniqueMeaning(primary + secondary);
    KeysConcat(primary, secondary);
    if secondary != [] {
      assert secondary[0] in secondary && KeyOf(secondary[0]) in Keys(secondary);
    }
  }

  datatype Strategy = Http | BrowserOnly | Hybrid

  datatype Scraped =
    | Result(listings: seq<Listing>, strategy: Strategy, directCount: nat)
    | Failure

  /** The least count that is half of what was asked for, and three or all of it. */
  function EnoughCount(limit: nat): (wanted: nat)
    ensures wanted <= limit && limit <= 2 * wanted && (wanted >= 3 || wanted == limit)
    ensures wanted > 3 ==> 2 * (wanted - 1) < limit
  {
    var half := (limit + 1) / 2;
    var wanted := if half < 3 then 3 else half;
    if limit < wanted then limit else wanted
  }

  /** `direct` and `browser` are what the two paths parsed, or None where a path
      failed (or, for the direct path, is switched off); `aborted` is the request's
      signal when the direct path fails. */
  method Scrape(direct: Option<seq<Listing>>, browser: Option<seq<Listing>>, aborted: bool, limit: nat)
    returns (outcome: Scraped)
    requires limit >= 1 && (direct.Some? ==> ParserOutput(direct.value, limit))
    requires browser.Some? ==> ParserOutput(browser.value, limit)
    ensures outcome.Result? ==> outcome.listings != [] && ParserOutput(outcome.listings, limit)
    ensures outcome.Result? && outcome.strategy.Http? <==> direct.Some? && |direct.value| >= EnoughCount(limit)
    ensures outcome.Result? && outcome.strategy.Http? ==> outcome.listings == direct.value
    ensures outcome.Result? && !outcome.strategy.Http? ==>
              browser.Some? && browser.value <= outcome.listings
              && (var all := browser.value + if direct.Some? then Without(direct.value, Keys(browser.value)) else [];
                  outcome.listings <= all && (|outcome.listings| == limit || outcome.listings == all))
              && (outcome.strategy.Hybrid? <==> direct.Some? && direct.value != [])
              && (direct.Some? && |outcome.listings| < limit ==>
                    Keys(outcome.listings) == Keys(browser.value) + Keys(direct.value))
    ensures outcome.Result? ==> outcome.directCount == if direct.Some? then |direct.value| else 0
    ensures outcome.Failure? <==>
              !(direct.Some? && |direct.value| >= EnoughCount(limit))
              && ((direct.None? && aborted) || browser.None?
                  || (browser.value == [] && (direct.None? || direct.value == [])))
  {
    var found: seq<Listing> := [];
    if direct.Some? {
      found := direct.value;
      if |found| >= EnoughCount(limit) {
        return Result(found, Http, |found|);
      }
    } else if aborted {
      return Failure;
    }
    if browser.None? {
      return Failure;
    }
    MergeKeepsPrimary(browser.value, found, limit);
    var listings := Merge(browser.value, found, limit);
    if listings == [] {
      return Failure;
    }
    outcome := Result(listings, if found != [] then Hybrid else BrowserOnly, |found|);
  }
}
