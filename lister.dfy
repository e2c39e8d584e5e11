/**
 * `get_sorted_image_list`: keep the directory entries whose name ends with
 * "." + extension and sort them, stably, by the integer value of the last
 * run of digits in the whole name.  The directory listing is an input.
 *
 * As Python's `sorted(..., key=...)` does, the model first pairs every kept
 * name with its key (every key is computed before any comparison), sorts the
 * pairs by key, and then drops the keys.
 */
module Lister {
  import opened Wrappers
  import opened Digits

  /** A kept name without any digit: the `[-1]` of the key function indexes an empty list. */
  datatype ListError = NoDigitRun

  /** A file name together with its sort key. */
  datatype ImageEntry = ImageEntry(name: string, key: nat)

  predicate EndsWith(s: string, suffix: string)
  {
    |suffix| <= |s| && s[|s| - |suffix|..] == suffix
  }

  /** The listing entries that pass the extension filter, in listing order. */
  function Matching(listing: seq<string>, ext: string): seq<string>
  {
    if listing == [] then []
    else (if EndsWith(listing[0], "." + ext) then [listing[0]] else []) + Matching(listing[1..], ext)
  }

  /** Each name is kept as often as it is listed when it ends with "." + ext, and never otherwise. */
  lemma {:induction false} MatchingMultiset(listing: seq<string>, ext: string)
    ensures forall x :: multiset(Matching(listing, ext))[x] == if EndsWith(x, "." + ext) then multiset(listing)[x] else 0
    decreases |listing|
  {
    if listing != [] {
      MatchingMultiset(listing[1..], ext);
      assert listing == [listing[0]] + listing[1..];
    }
  }

  // ---------------------------------------------------------------------
  // The sort key

  /** The key of a name: the value of the last run that `re.findall(r'\d+', name)` finds. */
  function KeyOf(name: string): nat
    requires HasDigit(name)
  {
    FindAllLast(name);
    var runs := FindAllDigitRuns(name);
    DecimalValue(runs[|runs| - 1])
  }

  /** The key is the value of the last maximal run of digits, extension included. */
  lemma KeyIsLastRunValue(name: string)
    requires HasDigit(name)
    ensures LastDigitRun(name).Some?
    ensures var sp := LastDigitRun(name).value; KeyOf(name) == DecimalValue(name[sp.start..sp.end])
  {
    FindAllLast(name);
  }

  /** Pairs each name with its key, in order; fails if some name has no digit. */
  function Decorate(names: seq<string>): (r: Result<seq<ImageEntry>, ListError>)
    ensures r.Failure? <==> exists i :: 0 <= i < |names| && !HasDigit(names[i])
    ensures r.Success? ==>
      && |r.value| == |names|
      && forall i :: 0 <= i < |names| ==> HasDigit(names[i]) && r.value[i] == ImageEntry(names[i], KeyOf(names[i]))
  {
    if names == [] then Success([])
    else
      FindAllLast(names[0]);
      if FindAllDigitRuns(names[0]) == [] then Failure(NoDigitRun)
      else
        match Decorate(names[1..])
        case Failure(e) => Failure(e)
        case Success(rest) => Success([ImageEntry(names[0], KeyOf(names[0]))] + rest)
  }

  function Names(entries: seq<ImageEntry>): (names: seq<string>)
    ensures |names| == |entries|
    ensures forall i :: 0 <= i < |entries| ==> names[i] == entries[i].name
  {
    if entries == [] then [] else [entries[0].name] + Names(entries[1..])
  }

  // ---------------------------------------------------------------------
  // Stable sort by key (Python's `sorted`)

  predicate AscendingKeys(entries: seq<ImageEntry>)
  {
    forall i, j :: 0 <= i < j < |entries| ==> entries[i].key <= entries[j].key
  }

  /** The entries of `entries` whose key is `k`, in their order. */
  function WithKey(entries: seq<ImageEntry>, k: nat): seq<ImageEntry>
  {
    if entries == [] then []
    else (if entries[0].key == k then [entries[0]] else []) + WithKey(entries[1..], k)
  }

  /** Puts `x` before the first entry whose key is not smaller than its own. */
  function InsertEntry(x: ImageEntry, entries: seq<ImageEntry>): (r: seq<ImageEntry>)
    ensures |r| == |entries| + 1
    ensures multiset(r) == multiset(entries) + multiset{x}
    ensures r[0] == x || (entries != [] && r[0] == entries[0])
  {
    if entries == [] || x.key <= entries[0].key then
      assert ([x] + entries)[1..] == entries;
      [x] + entries
    else
      var t := InsertEntry(x, entries[1..]);
      assert entries == [entries[0]] + entries[1..];
      assert ([entries[0]] + t)[1..] == t;
      [entries[0]] + t
  }

  /** Putting an entry whose key is at most the first key in front keeps entries ascending. */
  lemma ConsAscending(e: ImageEntry, t: seq<ImageEntry>)
    requires AscendingKeys(t)
    requires t != [] ==> e.key <= t[0].key
    ensures AscendingKeys([e] + t)
  {
    var r := [e] + t;
    forall i, j | 0 <= i < j < |r| ensures r[i].key <= r[j].key {
      assert r[j] == t[j - 1];
      if i > 0 {
        assert r[i] == t[i - 1];
      }
    }
  }

  /** Inserting into entries ascending by key keeps them ascending. */
  lemma {:induction false} InsertEntryAscending(x: ImageEntry, entries: seq<ImageEntry>)
    requires AscendingKeys(entries)
    ensures AscendingKeys(InsertEntry(x, entries))
    decreases |entries|
  {
    if entries == [] || x.key <= entries[0].key {
      ConsAscending(x, entries);
    } else {
      var rest := entries[1..];
      var t := InsertEntry(x, rest);
      assert AscendingKeys(rest);
      InsertEntryAscending(x, rest);
      assert t[0] == x || t[0] == rest[0];
      ConsAscending(entries[0], t);
    }
  }

  function SortEntries(entries: seq<ImageEntry>): (r: seq<ImageEntry>)
    ensures |r| == |entries|
    ensures multiset(r) == multiset(entries)
    ensures AscendingKeys(r)
  {
    if entries == [] then []
    else
      assert entries == [entries[0]] + entries[1..];
      InsertEntryAscending(entries[0], SortEntries(entries[1..]));
      InsertEntry(entries[0], SortEntries(entries[1..]))
  }

  lemma NamesCons(e: ImageEntry, entries: seq<ImageEntry>)
    ensures Names([e] + entries) == [e.name] + Names(entries)
  {
    assert ([e] + entries)[1..] == entries;
  }

  lemma {:induction false} InsertEntryNames(x: ImageEntry, entries: seq<ImageEntry>)
    ensures multiset(Names(InsertEntry(x, entries))) == multiset(Names(entries)) + multiset{x.name}
    decreases |entries|
  {
    if entries == [] || x.key <= entries[0].key {
      NamesCons(x, entries);
    } else {
      var h, rest := entries[0], entries[1..];
      NamesCons(h, rest);
      NamesCons(h, InsertEntry(x, rest));
      InsertEntryNames(x, rest);
    }
  }

  /** Sorting rearranges the names and nothing else. */
  lemma {:induction false} SortEntriesNames(entries: seq<ImageEntry>)
    ensures multiset(Names(SortEntries(entries))) == multiset(Names(entries))
    decreases |entries|
  {
    if entries != [] {
      assert entries == [entries[0]] + entries[1..];
      SortEntriesNames(entries[1..]);
      InsertEntryNames(entries[0], SortEntries(entries[1..]));
    }
  }

  lemma WithKeyCons(e: ImageEntry, entries: seq<ImageEntry>, k: nat)
    ensures WithKey([e] + entries, k) == (if e.key == k then [e] else []) + WithKey(entries, k)
  {
    assert ([e] + entries)[1..] == entries;
  }

  lemma {:induction false} InsertEntryWithKey(x: ImageEntry, entries: seq<ImageEntry>, k: nat)
    ensures WithKey(InsertEntry(x, entries), k) == if x.key == k then [x] + WithKey(entries, k) else WithKey(entries, k)
    decreases |entries|
  {
    if entries == [] || x.key <= entries[0].key {
      WithKeyCons(x, entries, k);
    } else {
      var e, rest := entries[0], entries[1..];
      InsertEntryWithKey(x, rest, k);
      WithKeyCons(e, InsertEntry(x, rest), k);
      WithKeyCons(e, rest, k);
      assert entries == [e] + rest;
    }
  }

  /** Entries with equal keys keep their relative order: the sort is stable. */
  lemma {:induction false} SortEntriesStable(entries: seq<ImageEntry>, k: nat)
    ensures WithKey(SortEntries(entries), k) == WithKey(entries, k)
    decreases |entries|
  {
    if entries != [] {
      SortEntriesStable(entries[1..], k);
      InsertEntryWithKey(entries[0], SortEntries(entries[1..]), k);
    }
  }

  // ---------------------------------------------------------------------
  // get_sorted_image_list

  /**
   * The sorted image list of a directory listing: the kept names, each paired
   * with its key, sorted by key, without the keys.
   */
  function SortedImageList(listing: seq<string>, ext: string): Result<seq<string>, ListError>
  {
    match Decorate(Matching(listing, ext))
    case Failure(e) => Failure(e)
    case Success(entries) => Success(Names(SortEntries(entries)))
  }

  predicate AllKeyed(names: seq<string>)
  {
    forall i :: 0 <= i < |names| ==> HasDigit(names[i])
  }

  /** Every name has a digit and the keys never decrease along the sequence. */
  predicate AscendingByKey(names: seq<string>)
  {
    && AllKeyed(names)
    && forall i, j :: 0 <= i < j < |names| ==> KeyOf(names[i]) <= KeyOf(names[j])
  }

  /** The names of `names` whose key is `k`, in their order. */
  function NamesWithKey(names: seq<string>, k: nat): seq<string>
    requires AllKeyed(names)
  {
    if names == [] then []
    else (if KeyOf(names[0]) == k then [names[0]] else []) + NamesWithKey(names[1..], k)
  }

  /** The entry carries the key of its own name. */
  predicate Keyed(e: ImageEntry)
  {
    HasDigit(e.name) && e.key == KeyOf(e.name)
  }

  lemma PermutationKeepsKeyed(entries: seq<ImageEntry>, other: seq<ImageEntry>)
    requires multiset(other) == multiset(entries)
    requires forall i :: 0 <= i < |entries| ==> Keyed(entries[i])
    ensures forall i :: 0 <= i < |other| ==> Keyed(other[i])
  {
    forall i | 0 <= i < |other| ensures Keyed(other[i]) {
      assert other[i] in multiset(entries);
    }
  }

  /** The names of keyed entries ascending by key are ascending by key. */
  lemma KeyedNamesAscending(entries: seq<ImageEntry>)
    requires forall i :: 0 <= i < |entries| ==> Keyed(entries[i])
    requires AscendingKeys(entries)
    ensures AscendingByKey(Names(entries))
  {
    var r := Names(entries);
    forall i, j | 0 <= i < j < |r| ensures KeyOf(r[i]) <= KeyOf(r[j]) {
      assert Keyed(entries[i]) && Keyed(entries[j]);
    }
  }

  lemma NamesAppend(a: seq<ImageEntry>, b: seq<ImageEntry>)
    ensures Names(a + b) == Names(a) + Names(b)
  {
  }

  lemma {:induction false} NamesOfWithKey(entries: seq<ImageEntry>, k: nat)
    requires forall i :: 0 <= i < |entries| ==> Keyed(entries[i])
    ensures AllKeyed(Names(entries))
    ensures Names(WithKey(entries, k)) == NamesWithKey(Names(entries), k)
    decreases |entries|
  {
    if entries != [] {
      var e, rest := entries[0], entries[1..];
      NamesOfWithKey(rest, k);
      var head := if e.key == k then [e] else [];
      assert WithKey(entries, k) == head + WithKey(rest, k);
      NamesAppend(head, WithKey(rest, k));
      var ns := Names(entries);
      assert ns[0] == e.name && ns[1..] == Names(rest);
      assert NamesWithKey(ns, k) == Names(head) + NamesWithKey(Names(rest), k) by {
        assert Keyed(e);
      }
    }
  }

  /** The call fails exactly when some name passing the filter has no digit. */
  lemma SortedImageListFails(listing: seq<string>, ext: string)
    ensures SortedImageList(listing, ext).Failure? <==> exists n :: n in Matching(listing, ext) && !HasDigit(n)
  {
    var kept := Matching(listing, ext);
    if exists n :: n in kept && !HasDigit(n) {
      var n :| n in kept && !HasDigit(n);
      var i :| 0 <= i < |kept| && kept[i] == n;
    }
  }

  /** Decorating gives entries whose names are the kept names, each with its own key. */
  lemma DecoratedEntries(listing: seq<string>, ext: string)
    requires Decorate(Matching(listing, ext)).Success?
    ensures var entries := Decorate(Matching(listing, ext)).value;
      && Names(entries) == Matching(listing, ext)
      && forall i :: 0 <= i < |entries| ==> Keyed(entries[i])
  {
  }

  /**
   * The result is a permutation of the names passing the extension filter:
   * none of them dropped, nothing else added.
   */
  lemma SortedImageListPermutation(listing: seq<string>, ext: string)
    requires SortedImageList(listing, ext).Success?
    ensures multiset(SortedImageList(listing, ext).value) == multiset(Matching(listing, ext))
    ensures forall x :: x in SortedImageList(listing, ext).value <==> x in listing && EndsWith(x, "." + ext)
  {
    var r := SortedImageList(listing, ext).value;
    DecoratedEntries(listing, ext);
    SortEntriesNames(Decorate(Matching(listing, ext)).value);
    MatchingMultiset(listing, ext);
    forall x ensures x in r <==> x in listing && EndsWith(x, "." + ext) {
      assert x in r <==> multiset(r)[x] > 0;
      assert x in listing <==> multiset(listing)[x] > 0;
    }
  }

  /** The result is ascending by key: a1, a2, a10 and not a1, a10, a2. */
  lemma SortedImageListAscending(listing: seq<string>, ext: string)
    requires SortedImageList(listing, ext).Success?
    ensures AscendingByKey(SortedImageList(listing, ext).value)
  {
    var entries := Decorate(Matching(listing, ext)).value;
    var sorted := SortEntries(entries);
    DecoratedEntries(listing, ext);
    PermutationKeepsKeyed(entries, sorted);
    KeyedNamesAscending(sorted);
  }

  /** Names with equal keys come out in their listing order. */
  lemma SortedImageListStable(listing: seq<string>, ext: string, k: nat)
    requires SortedImageList(listing, ext).Success?
    ensures AllKeyed(Matching(listing, ext)) && AllKeyed(SortedImageList(listing, ext).value)
    ensures NamesWithKey(SortedImageList(listing, ext).value, k) == NamesWithKey(Matching(listing, ext), k)
  {
    var entries := Decorate(Matching(listing, ext)).value;
    var sorted := SortEntries(entries);
    DecoratedEntries(listing, ext);
    PermutationKeepsKeyed(entries, sorted);
    SortEntriesStable(entries, k);
    NamesOfWithKey(entries, k);
    NamesOfWithKey(sorted, k);
  }

  /** Any span that is the last maximal run of digits of a name gives its key. */
  lemma KeyFromSpan(name: string, sp: Span)
    requires IsLastRun(name, sp)
    ensures HasDigit(name) && KeyOf(name) == DecimalValue(name[sp.start..sp.end])
  {
    assert IsDigit(name[sp.start]);
    KeyIsLastRunValue(name);
    LastRunUnique(name, sp, LastDigitRun(name).value);
  }

  /**
   * Leading zeros do not change the key: "x-07.png" and "y-7.png" both have
   * key 7, so the sort keeps them in listing order.
   */
  lemma LeadingZeroSameKey(p: string, d: string, q: string)
    requires |d| > 0 && AllDigits(d)
    requires p == [] || !IsDigit(p[|p| - 1])
    requires forall k :: 0 <= k < |q| ==> !IsDigit(q[k])
    ensures HasDigit(p + d + q) && HasDigit(p + "0" + d + q)
    ensures KeyOf(p + "0" + d + q) == KeyOf(p + d + q)
  {
    KeyOfLastRun(p, d, q);
    assert p + "0" + d + q == p + ("0" + d) + q;
    KeyOfLastRun(p, "0" + d, q);
    LeadingZeroIgnored(d);
  }

  /** The key of a name made of `p`, a run of digits `d` and a digit-free `q` is the value of `d`. */
  lemma KeyOfLastRun(p: string, d: string, q: string)
    requires |d| > 0 && AllDigits(d)
    requires p == [] || !IsDigit(p[|p| - 1])
    requires forall k :: 0 <= k < |q| ==> !IsDigit(q[k])
    ensures HasDigit(p + d + q) && KeyOf(p + d + q) == DecimalValue(d)
  {
    var s := p + d + q;
    var sp := Span(|p|, |p| + |d|);
    LastRunOfSplit(p, d, q);
    KeyFromSpan(s, sp);
  }

  // ---------------------------------------------------------------------
  // Examples

  /** The file name "<p><d>.<ext>". */
  function Numbered(p: string, d: string, ext: string): string
  {
    p + d + "." + ext
  }

  /**
   * Natural order: whatever the prefix and the extension, "<p>10.<ext>"
   * sorts after "<p>2.<ext>", not between "<p>1.<ext>" and "<p>2.<ext>".
   */
  lemma NaturalOrder(p: string, ext: string)
    requires p == [] || !IsDigit(p[|p| - 1])
    requires forall k :: 0 <= k < |ext| ==> !IsDigit(ext[k])
    ensures SortedImageList([Numbered(p, "10", ext), Numbered(p, "2", ext), Numbered(p, "1", ext)], ext)
      == Success([Numbered(p, "1", ext), Numbered(p, "2", ext), Numbered(p, "10", ext)])
  {
    var n10, n2, n1 := Numbered(p, "10", ext), Numbered(p, "2", ext), Numbered(p, "1", ext);
    var e10, e2, e1 := ImageEntry(n10, 10), ImageEntry(n2, 2), ImageEntry(n1, 1);
    NaturalOrderDecorated(p, ext);
    SortDescendingThree(e10, e2, e1);
    NamesThree(e1, e2, e10);
    SortedImageListOf([n10, n2, n1], ext, [e10, e2, e1]);
  }

  /** The three names of the natural-order example are kept and decorated in listing order. */
  lemma NaturalOrderDecorated(p: string, ext: string)
    requires p == [] || !IsDigit(p[|p| - 1])
    requires forall k :: 0 <= k < |ext| ==> !IsDigit(ext[k])
    ensures var n10, n2, n1 := Numbered(p, "10", ext), Numbered(p, "2", ext), Numbered(p, "1", ext);
      Decorate(Matching([n10, n2, n1], ext)) == Success([ImageEntry(n10, 10), ImageEntry(n2, 2), ImageEntry(n1, 1)])
  {
    var n10, n2, n1 := Numbered(p, "10", ext), Numbered(p, "2", ext), Numbered(p, "1", ext);
    NaturalOrderKeys(p, ext);
    DecoratedThree(n10, n2, n1, ext, 10, 2, 1);
  }

  /** The three names of the natural-order example pass the filter and have keys 10, 2 and 1. */
  lemma NaturalOrderKeys(p: string, ext: string)
    requires p == [] || !IsDigit(p[|p| - 1])
    requires forall k :: 0 <= k < |ext| ==> !IsDigit(ext[k])
    ensures EndsWith(Numbered(p, "10", ext), "." + ext) && HasDigit(Numbered(p, "10", ext)) && KeyOf(Numbered(p, "10", ext)) == 10
    ensures EndsWith(Numbered(p, "2", ext), "." + ext) && HasDigit(Numbered(p, "2", ext)) && KeyOf(Numbered(p, "2", ext)) == 2
    ensures EndsWith(Numbered(p, "1", ext), "." + ext) && HasDigit(Numbered(p, "1", ext)) && KeyOf(Numbered(p, "1", ext)) == 1
  {
    DecimalTen();
    NumberedKey(p, "10", ext, 10);
    NumberedKey(p, "2", ext, 2);
    NumberedKey(p, "1", ext, 1);
  }

  lemma DecimalTen()
    ensures DecimalValue("10") == 10
  {
    assert "10"[..1] == "1";
  }

  lemma SortedImageListOf(listing: seq<string>, ext: string, entries: seq<ImageEntry>)
    requires Decorate(Matching(listing, ext)) == Success(entries)
    ensures SortedImageList(listing, ext) == Success(Names(SortEntries(entries)))
  {
  }

  /** "<p><d>.<ext>" passes the filter for `ext` and has key `int(d)`. */
  lemma NumberedKey(p: string, d: string, ext: string, k: nat)
    requires |d| > 0 && AllDigits(d) && DecimalValue(d) == k
    requires p == [] || !IsDigit(p[|p| - 1])
    requires forall i :: 0 <= i < |ext| ==> !IsDigit(ext[i])
    ensures EndsWith(Numbered(p, d, ext), "." + ext)
    ensures HasDigit(Numbered(p, d, ext)) && KeyOf(Numbered(p, d, ext)) == k
  {
    var q := "." + ext;
    forall i | 0 <= i < |q| ensures !IsDigit(q[i]) {
      if i > 0 {
        assert q[i] == ext[i - 1];
      }
    }
    assert p + d + "." + ext == p + d + q;
    KeyOfLastRun(p, d, q);
    assert (p + d + q)[|p + d|..] == q;
  }

  /** A listing whose every name passes the filter is kept whole. */
  lemma {:induction false} MatchingAll(listing: seq<string>, ext: string)
    requires forall i :: 0 <= i < |listing| ==> EndsWith(listing[i], "." + ext)
    ensures Matching(listing, ext) == listing
    decreases |listing|
  {
    if listing != [] {
      var rest := listing[1..];
      MatchingAll(rest, ext);
      assert EndsWith(listing[0], "." + ext);
      assert Matching(listing, ext) == [listing[0]] + rest;
      assert [listing[0]] + rest == listing;
    }
  }

  /** Three names that pass the filter, with keys `ka`, `kb` and `kc`, are kept and decorated in order. */
  lemma DecoratedThree(a: string, b: string, c: string, ext: string, ka: nat, kb: nat, kc: nat)
    requires EndsWith(a, "." + ext) && EndsWith(b, "." + ext) && EndsWith(c, "." + ext)
    requires HasDigit(a) && HasDigit(b) && HasDigit(c)
    requires KeyOf(a) == ka && KeyOf(b) == kb && KeyOf(c) == kc
    ensures Decorate(Matching([a, b, c], ext)) == Success([ImageEntry(a, ka), ImageEntry(b, kb), ImageEntry(c, kc)])
  {
    var names := [a, b, c];
    forall i | 0 <= i < |names| ensures EndsWith(names[i], "." + ext) {
    }
    MatchingAll(names, ext);
    var r := Decorate(names);
    assert r.Success? by {
      forall i | 0 <= i < |names| ensures HasDigit(names[i]) {
      }
    }
    assert |r.value| == 3;
    assert r.value == [r.value[0], r.value[1], r.value[2]];
    assert r.value[0] == ImageEntry(a, ka);
    assert r.value[1] == ImageEntry(b, kb);
    assert r.value[2] == ImageEntry(c, kc);
  }

  lemma NamesThree(a: ImageEntry, b: ImageEntry, c: ImageEntry)
    ensures Names([a, b, c]) == [a.name, b.name, c.name]
  {
  }

  /** Three entries with strictly decreasing keys come out reversed. */
  lemma SortDescendingThree(x: ImageEntry, y: ImageEntry, z: ImageEntry)
    requires z.key < y.key < x.key
    ensures SortEntries([x, y, z]) == [z, y, x]
  {
    assert [x, y, z][1..] == [y, z] && [y, z][1..] == [z] && [z][1..] == [];
    assert SortEntries([z]) == [z];
    InsertLastOfOne(y, z);
    InsertLast(x, z, y);
  }

  /** Inserting an entry with the largest key puts it last. */
  lemma InsertLast(x: ImageEntry, a: ImageEntry, b: ImageEntry)
    requires a.key < x.key && b.key < x.key
    ensures InsertEntry(x, [a, b]) == [a, b, x]
  {
    assert [a, b][1..] == [b];
    InsertLastOfOne(x, b);
  }

  lemma InsertLastOfOne(x: ImageEntry, a: ImageEntry)
    requires a.key < x.key
    ensures InsertEntry(x, [a]) == [a, x]
  {
    assert [a][1..] == [];
  }

  /** The natural-order example with prefix "a" and extension "png". */
  lemma NaturalOrderExample()
    ensures SortedImageList(["a10.png", "a2.png", "a1.png"], "png") == Success(["a1.png", "a2.png", "a10.png"])
  {
    ExampleNames();
    NaturalOrder("a", "png");
  }

  lemma ExampleNames()
    ensures Numbered("a", "10", "png") == "a10.png"
    ensures Numbered("a", "2", "png") == "a2.png"
    ensures Numbered("a", "1", "png") == "a1.png"
  {
  }

  /** A name without a digit makes the whole listing fail. */
  lemma NoDigitExample()
    ensures SortedImageList(["noDigitsHere.png"], "png").Failure?
  {
    NoDigitName();
    MatchingAll(["noDigitsHere.png"], "png");
    SortedImageListFails(["noDigitsHere.png"], "png");
  }

  lemma NoDigitName()
    ensures EndsWith("noDigitsHere.png", ".png") && !HasDigit("noDigitsHere.png")
  {
  }
}
