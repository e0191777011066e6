/** `workingProxies` and `updateOutput`: successful probes are appended, the
    list is re-sorted by ping with the engine's stable `Array.prototype.sort`
    and rendered as `link # Ping: Nms` entries separated by a blank line. */
module Ranking {
  import opened Strings
  import opened JsNumber
  import opened Seqs

  /** One working proxy: the cleaned link and its measured ping in ms. */
  datatype Entry = Entry(link: string, ping: nat)

  predicate SortedByPing(xs: seq<Entry>) {
    forall i, j :: 0 <= i < j < |xs| ==> xs[i].ping <= xs[j].ping
  }

  /** The entries of `xs` whose ping is `p`, in their order in `xs`. Two
      lists agree on every `WithPing` exactly when a stable sort cannot
      tell them apart. */
  function WithPing(xs: seq<Entry>, p: nat): seq<Entry>
    decreases |xs|
  {
    if |xs| == 0 then []
    else (if xs[0].ping == p then [xs[0]] else []) + WithPing(xs[1..], p)
  }

  /** The group holds entries of `xs` with ping `p` only, and is empty
      exactly when no entry has that ping. */
  lemma {:induction false} WithPingSpec(xs: seq<Entry>, p: nat)
    ensures forall k :: 0 <= k < |WithPing(xs, p)| ==> WithPing(xs, p)[k].ping == p && WithPing(xs, p)[k] in xs
    ensures WithPing(xs, p) == [] <==> forall i :: 0 <= i < |xs| ==> xs[i].ping != p
    decreases |xs|
  {
    if |xs| > 0 {
      WithPingSpec(xs[1..], p);
      var h := if xs[0].ping == p then [xs[0]] else [];
      var r := WithPing(xs, p);
      assert r == h + WithPing(xs[1..], p);
      forall k | 0 <= k < |r|
        ensures r[k].ping == p && r[k] in xs
      {
        if k >= |h| {
          assert r[k] == WithPing(xs[1..], p)[k - |h|];
          assert r[k] in xs[1..];
        }
      }
      if r == [] {
        forall i | 0 <= i < |xs|
          ensures xs[i].ping != p
        {
          if i > 0 { assert xs[i] == xs[1..][i - 1]; }
        }
      }
    }
  }

  lemma {:induction false} WithPingAppend(a: seq<Entry>, b: seq<Entry>, p: nat)
    ensures WithPing(a + b, p) == WithPing(a, p) + WithPing(b, p)
    decreases |a|
  {
    if |a| > 0 {
      assert (a + b)[1..] == a[1..] + b;
      WithPingAppend(a[1..], b, p);
    } else {
      assert a + b == b;
    }
  }

  /** Places `e` after every leading entry whose ping is not larger. */
  function Insert(xs: seq<Entry>, e: Entry): (r: seq<Entry>)
    ensures |r| == |xs| + 1
    decreases |xs|
  {
    if |xs| == 0 then [e]
    else if e.ping < xs[0].ping then [e] + xs
    else [xs[0]] + Insert(xs[1..], e)
  }

  /** Inserting adds exactly the new entry. */
  lemma {:induction false} InsertMultiset(xs: seq<Entry>, e: Entry)
    ensures multiset(Insert(xs, e)) == multiset(xs) + multiset{e}
    decreases |xs|
  {
    if |xs| > 0 && e.ping >= xs[0].ping {
      InsertMultiset(xs[1..], e);
      assert xs == [xs[0]] + xs[1..];
    }
  }

  /** Inserting into a sorted list keeps it sorted. */
  lemma {:induction false} InsertSorted(xs: seq<Entry>, e: Entry)
    requires SortedByPing(xs)
    ensures SortedByPing(Insert(xs, e))
    decreases |xs|
  {
    if |xs| > 0 && e.ping >= xs[0].ping {
      InsertSorted(xs[1..], e);
      InsertAbove(xs[1..], e, xs[0].ping);
    }
  }

  /** A lower bound on every ping survives the insertion of an entry that
      respects it. */
  lemma {:induction false} InsertAbove(xs: seq<Entry>, e: Entry, m: nat)
    requires forall k :: 0 <= k < |xs| ==> m <= xs[k].ping
    requires m <= e.ping
    ensures forall k :: 0 <= k < |Insert(xs, e)| ==> m <= Insert(xs, e)[k].ping
    decreases |xs|
  {
    if |xs| > 0 && e.ping >= xs[0].ping {
      InsertAbove(xs[1..], e, m);
    }
  }

  /** Inserting into a sorted list keeps every equal-ping group in order,
      with the new entry last in its group. */
  lemma {:induction false} InsertStable(xs: seq<Entry>, e: Entry, p: nat)
    requires SortedByPing(xs)
    ensures WithPing(Insert(xs, e), p) == WithPing(xs + [e], p)
    decreases |xs|
  {
    if |xs| == 0 {
      assert xs + [e] == [e];
    } else if e.ping < xs[0].ping {
      InsertFront(xs, e, p);
    } else {
      InsertStable(xs[1..], e, p);
      InsertBehind(xs, e, p);
    }
  }

  /** An entry smaller than the head goes first; no entry of `xs` shares its
      ping. */
  lemma InsertFront(xs: seq<Entry>, e: Entry, p: nat)
    requires SortedByPing(xs) && |xs| > 0 && e.ping < xs[0].ping
    ensures WithPing(Insert(xs, e), p) == WithPing(xs + [e], p)
  {
    assert Insert(xs, e) == [e] + xs;
    WithPingAppend([e], xs, p);
    WithPingAppend(xs, [e], p);
    if p == e.ping {
      assert forall k :: 0 <= k < |xs| ==> xs[k].ping != p;
      WithPingSpec(xs, p);
    }
  }

  /** An entry not smaller than the head goes behind it. */
  lemma InsertBehind(xs: seq<Entry>, e: Entry, p: nat)
    requires |xs| > 0 && e.ping >= xs[0].ping
    requires WithPing(Insert(xs[1..], e), p) == WithPing(xs[1..] + [e], p)
    ensures WithPing(Insert(xs, e), p) == WithPing(xs + [e], p)
  {
    var rest := Insert(xs[1..], e);
    var tail := xs[1..] + [e];
    assert Insert(xs, e) == [xs[0]] + rest;
    assert [xs[0]] + tail == xs + [e];
    WithPingAppend([xs[0]], rest, p);
    WithPingAppend([xs[0]], tail, p);
  }

  /** An entry whose ping is at least every other one goes at the end. */
  lemma {:induction false} InsertLast(xs: seq<Entry>, e: Entry)
    requires forall k :: 0 <= k < |xs| ==> xs[k].ping <= e.ping
    ensures Insert(xs, e) == xs + [e]
    decreases |xs|
  {
    if |xs| > 0 {
      InsertLast(xs[1..], e);
      assert [xs[0]] + (xs[1..] + [e]) == xs + [e];
    }
  }

  /** `xs.sort((a, b) => a.ping - b.ping)`: a stable sort, written as an
      insertion sort over the list in order. */
  function SortByPing(xs: seq<Entry>): (r: seq<Entry>)
    ensures |r| == |xs|
    decreases |xs|
  {
    if |xs| == 0 then []
    else Insert(SortByPing(xs[..|xs| - 1]), xs[|xs| - 1])
  }

  /** The sort's result is sorted by ping and a permutation of its input. */
  lemma SortByPingSpec(xs: seq<Entry>)
    ensures SortedByPing(SortByPing(xs))
    ensures multiset(SortByPing(xs)) == multiset(xs)
  {
    SortByPingSorted(xs);
    SortByPingPermutes(xs);
  }

  lemma {:induction false} SortByPingSorted(xs: seq<Entry>)
    ensures SortedByPing(SortByPing(xs))
    decreases |xs|
  {
    if |xs| > 0 {
      SortByPingSorted(xs[..|xs| - 1]);
      InsertSorted(SortByPing(xs[..|xs| - 1]), xs[|xs| - 1]);
    }
  }

  lemma {:induction false} SortByPingPermutes(xs: seq<Entry>)
    ensures multiset(SortByPing(xs)) == multiset(xs)
    decreases |xs|
  {
    if |xs| > 0 {
      var init := xs[..|xs| - 1];
      SortByPingPermutes(init);
      InsertMultiset(SortByPing(init), xs[|xs| - 1]);
      FrontLast(xs);
    }
  }

  /** Sorting keeps each equal-ping group in its original order. */
  lemma {:induction false} SortStable(xs: seq<Entry>, p: nat)
    ensures WithPing(SortByPing(xs), p) == WithPing(xs, p)
    decreases |xs|
  {
    if |xs| > 0 {
      var init := xs[..|xs| - 1];
      var last := xs[|xs| - 1];
      FrontLast(xs);
      SortStable(init, p);
      SortByPingSpec(init);
      InsertStable(SortByPing(init), last, p);
      WithPingAppend(SortByPing(init), [last], p);
      WithPingAppend(init, [last], p);
    }
  }

  /** A sorted list is left as it is. */
  lemma {:induction false} SortSorted(xs: seq<Entry>)
    requires SortedByPing(xs)
    ensures SortByPing(xs) == xs
    decreases |xs|
  {
    if |xs| > 0 {
      var init := xs[..|xs| - 1];
      SortSorted(init);
      InsertLast(init, xs[|xs| - 1]);
      FrontLast(xs);
    }
  }

  /** Sortedness and the equal-ping groups determine the list: the stable
      sort is the only sorted arrangement that keeps every group in order. */
  lemma {:induction false} StableSortUnique(a: seq<Entry>, b: seq<Entry>)
    requires SortedByPing(a) && SortedByPing(b)
    requires forall p :: WithPing(a, p) == WithPing(b, p)
    ensures a == b
    decreases |a|
  {
    // a non-empty list has a non-empty group, so both sides are empty or neither
    if |a| > 0 { WithPingSpec(a, a[0].ping); WithPingSpec(b, a[0].ping); }
    if |b| > 0 { WithPingSpec(a, b[0].ping); WithPingSpec(b, b[0].ping); }
    assert |a| > 0 ==> WithPing(b, a[0].ping) == WithPing(a, a[0].ping) != [];
    assert |b| > 0 ==> WithPing(a, b[0].ping) == WithPing(b, b[0].ping) != [];
    if |a| > 0 {
      var m := a[0].ping;
      var n := b[0].ping;
      assert WithPing(a, m) == [a[0]] + WithPing(a[1..], m);
      assert WithPing(b, n) == [b[0]] + WithPing(b[1..], n);
      assert m <= n by {
        var x := WithPing(a, n)[0];
        assert x in a && x.ping == n;
      }
      assert n <= m by {
        var x := WithPing(b, m)[0];
        assert x in b && x.ping == m;
      }
      assert WithPing(a, m)[0] == a[0] && WithPing(b, m)[0] == b[0];
      forall p
        ensures WithPing(a[1..], p) == WithPing(b[1..], p)
      {
        var h := if m == p then [a[0]] else [];
        assert WithPing(a, p) == h + WithPing(a[1..], p);
        assert WithPing(b, p) == h + WithPing(b[1..], p);
        assert (h + WithPing(a[1..], p))[|h|..] == WithPing(a[1..], p);
        assert (h + WithPing(b[1..], p))[|h|..] == WithPing(b[1..], p);
      }
      StableSortUnique(a[1..], b[1..]);
      assert a == [a[0]] + a[1..] && b == [b[0]] + b[1..];
    }
  }

  /** `workingProxies.push(entry); workingProxies.sort(...)`. */
  function AddWorking(ws: seq<Entry>, e: Entry): seq<Entry> {
    SortByPing(ws + [e])
  }

  /** After the append and re-sort the list is sorted, holds the old entries
      plus the new one, and keeps every equal-ping group in insertion order. */
  lemma AddWorkingSpec(ws: seq<Entry>, e: Entry)
    ensures SortedByPing(AddWorking(ws, e))
    ensures multiset(AddWorking(ws, e)) == multiset(ws) + multiset{e}
    ensures forall p :: WithPing(AddWorking(ws, e), p) == WithPing(ws + [e], p)
  {
    SortByPingSpec(ws + [e]);
    forall p
      ensures WithPing(AddWorking(ws, e), p) == WithPing(ws + [e], p)
    {
      SortStable(ws + [e], p);
    }
  }

  /** Sorting after every append gives the same list as sorting all the
      successes once, in the order they completed. */
  lemma AddWorkingIncremental(xs: seq<Entry>, e: Entry)
    ensures AddWorking(SortByPing(xs), e) == SortByPing(xs + [e])
  {
    var sorted := SortByPing(xs);
    SortByPingSpec(xs);
    SortSorted(sorted);
    AppendPrefix(sorted, [e]);
    assert SortByPing(sorted + [e]) == Insert(sorted, e);
    AppendPrefix(xs, [e]);
    assert SortByPing(xs + [e]) == Insert(sorted, e);
  }

  /** On an already sorted list the append-and-sort is an insertion after
      the entries with an equal or smaller ping. */
  lemma AddWorkingInserts(ws: seq<Entry>, e: Entry)
    requires SortedByPing(ws)
    ensures AddWorking(ws, e) == Insert(ws, e)
  {
    SortSorted(ws);
    AppendPrefix(ws, [e]);
  }

  /** The text of one entry: `${link} # Ping: ${ping}ms`. */
  function EntryText(e: Entry): string {
    e.link + " # Ping: " + DecimalString(e.ping) + "ms"
  }

  function Texts(ws: seq<Entry>): (r: seq<string>)
    ensures |r| == |ws|
    ensures forall k :: 0 <= k < |ws| ==> r[k] == EntryText(ws[k])
    decreases |ws|
  {
    if |ws| == 0 then [] else [EntryText(ws[0])] + Texts(ws[1..])
  }

  /** The output text: entries joined by a blank line. */
  function Render(ws: seq<Entry>): (r: string)
    ensures |ws| == 0 ==> r == ""
    ensures |ws| == 1 ==> r == EntryText(ws[0])
  {
    Join(Texts(ws), "\n\n")
  }

  /** Lines with an empty line between consecutive ones. */
  function Spaced(ts: seq<string>): (r: seq<string>)
    requires |ts| >= 1
    ensures |r| == 2 * |ts| - 1
    decreases |ts|
  {
    if |ts| == 1 then ts else [ts[0], ""] + Spaced(ts[1..])
  }

  /** Even lines are the texts in order, odd lines are empty. */
  lemma {:induction false} SpacedAt(ts: seq<string>)
    requires |ts| >= 1
    ensures forall j :: 0 <= j < |Spaced(ts)| && j % 2 == 0 ==> Spaced(ts)[j] == ts[j / 2]
    ensures forall j :: 0 <= j < |Spaced(ts)| && j % 2 == 1 ==> Spaced(ts)[j] == ""
    decreases |ts|
  {
    if |ts| > 1 {
      SpacedAt(ts[1..]);
      var r := Spaced(ts);
      var rest := Spaced(ts[1..]);
      forall j | 2 <= j < |r|
        ensures r[j] == rest[j - 2]
        ensures j % 2 == (j - 2) % 2 && (j % 2 == 0 ==> j / 2 == (j - 2) / 2 + 1)
      {
      }
    }
  }

  lemma {:induction false} JoinBlankLine(ts: seq<string>)
    requires |ts| >= 1
    ensures Join(ts, "\n\n") == Join(Spaced(ts), "\n")
    decreases |ts|
  {
    if |ts| > 1 {
      var sp := Spaced(ts);
      var j := Join(ts[1..], "\n\n");
      assert sp == [ts[0], ""] + Spaced(ts[1..]);
      assert sp[1..] == [""] + Spaced(ts[1..]);
      assert sp[1..][1..] == Spaced(ts[1..]);
      calc {
        Join(sp, "\n");
        sp[0] + "\n" + Join(sp[1..], "\n");
        ts[0] + "\n" + ("" + "\n" + Join(Spaced(ts[1..]), "\n"));
        { JoinBlankLine(ts[1..]); }
        ts[0] + "\n" + ("" + "\n" + j);
        { BlankLineJoin(ts[0], j); }
        ts[0] + "\n\n" + j;
      }
    }
  }

  lemma BlankLineJoin(a: string, j: string)
    ensures a + "\n" + ("" + "\n" + j) == a + "\n\n" + j
  {
  }

  /** An entry's text is one line when its link is. */
  lemma EntryTextSingleLine(e: Entry)
    requires '\n' !in e.link
    ensures '\n' !in EntryText(e)
  {
    var d := DecimalString(e.ping);
    DecimalStringDigits(e.ping);
    assert forall i :: 0 <= i < |d| ==> d[i] != '\n';
  }

  /** Read line by line, the output holds entry `k` on line `2k` and a blank
      line between entries, provided no link contains a line break (links
      come from single lines of the input). */
  lemma RenderLines(ws: seq<Entry>)
    requires |ws| >= 1
    requires forall k :: 0 <= k < |ws| ==> '\n' !in ws[k].link
    ensures var lines := Split(Render(ws), '\n');
      && |lines| == 2 * |ws| - 1
      && (forall k :: 0 <= k < |ws| ==> lines[2 * k] == EntryText(ws[k]))
      && (forall k :: 0 <= k < |ws| - 1 ==> lines[2 * k + 1] == "")
  {
    var ts := Texts(ws);
    forall k | 0 <= k < |ts|
      ensures '\n' !in ts[k]
    {
      EntryTextSingleLine(ws[k]);
    }
    JoinBlankLine(ts);
    var sp := Spaced(ts);
    SpacedAt(ts);
    forall j | 0 <= j < |sp|
      ensures '\n' !in sp[j]
    {
      if j % 2 == 0 {
        assert sp[j] == ts[j / 2];
      }
    }
    SplitJoin(sp, '\n');
    forall k | 0 <= k < |ws|
      ensures sp[2 * k] == ts[k]
    {
      var j := 2 * k;
      assert j % 2 == 0 && j / 2 == k;
    }
    forall k | 0 <= k < |ws| - 1
      ensures sp[2 * k + 1] == ""
    {
      var j := 2 * k + 1;
      assert j % 2 == 1;
    }
  }

  /** The ping of an entry can be read back from its text with `parseInt`. */
  lemma EntryPingReadBack(e: Entry)
    ensures ParseInt(EntryText(e)[|e.link| + 9..]) == Num(e.ping)
  {
    var t := EntryText(e);
    assert t[|e.link| + 9..] == DecimalString(e.ping) + "ms";
    ParseIntOfDecimal(e.ping, "ms");
  }
}
