/**
 * The join `save` performs between the items of the view and the upload
 * ledger, stated as functions of the item list and of the ledger records'
 * `file` descriptors, with the properties of that join.
 */
module Reconcile {
  import opened Js
  import opened GalleryRecords
  import opened GalleryUi

  /**
   * `imageName == rawData.file.name` for a record whose `file` is present:
   * only a file whose name is exactly that text matches.
   */
  predicate Matches(name: string, file: Option<FileDesc>): (m: bool)
    ensures m <==> file.Some? && file.value.name == Str(name)
  {
    file.Some? && LooseEquals(name, file.value.name)
  }

  /** The ledger positions one item collects (the inner loop of `save`): every match, in ledger order. */
  function MatchesOf(name: string, files: seq<Option<FileDesc>>): (js: seq<nat>)
    ensures forall k :: 0 <= k < |js| ==> js[k] < |files|
  {
    if files == [] then []
    else
      var n := |files| - 1;
      MatchesOf(name, files[..n]) + if Matches(name, files[n]) then [n] else []
  }

  /** Every position one item's scan collects holds a record that item matches. */
  lemma {:induction false} MatchesOfSound(name: string, files: seq<Option<FileDesc>>)
    ensures forall k :: 0 <= k < |MatchesOf(name, files)| ==> Matches(name, files[MatchesOf(name, files)[k]])
  {
    if files != [] {
      var n := |files| - 1;
      MatchesOfSound(name, files[..n]);
      var prefix := MatchesOf(name, files[..n]);
      var tail: seq<nat> := if Matches(name, files[n]) then [n] else [];
      assert MatchesOf(name, files) == prefix + tail;
      forall k | 0 <= k < |prefix + tail|
        ensures Matches(name, files[(prefix + tail)[k]])
      {
        if k < |prefix| {
          assert (prefix + tail)[k] == prefix[k];
          assert files[..n][prefix[k]] == files[prefix[k]];
        }
      }
    }
  }

  /** Positions listed in strictly ascending order: ledger order, each at most once. */
  predicate StrictlyIncreasing(js: seq<nat>)
  {
    forall k, l :: 0 <= k < l < |js| ==> js[k] < js[l]
  }

  /** One item's scan misses no matching record and visits the ledger in order. */
  lemma {:induction false} MatchesOfComplete(name: string, files: seq<Option<FileDesc>>)
    ensures forall j :: 0 <= j < |files| && Matches(name, files[j]) ==> j in MatchesOf(name, files)
    ensures StrictlyIncreasing(MatchesOf(name, files))
  {
    if files != [] {
      var n := |files| - 1;
      MatchesOfComplete(name, files[..n]);
      var prefix := MatchesOf(name, files[..n]);
      var tail: seq<nat> := if Matches(name, files[n]) then [n] else [];
      assert MatchesOf(name, files) == prefix + tail;
      forall j | 0 <= j < |files| && Matches(name, files[j])
        ensures j in prefix + tail
      {
        if j < n {
          assert files[..n][j] == files[j];
          assert j in prefix;
        } else {
          assert j in tail;
        }
      }
      var js := prefix + tail;
      forall k, l | 0 <= k < l < |js|
        ensures js[k] < js[l]
      {
        if l < |prefix| {
          assert js[k] == prefix[k] && js[l] == prefix[l];
        } else {
          assert js[k] == prefix[k] < n && js[l] == n;
        }
      }
    }
  }

  /**
   * The ledger positions `save` collects: for each item in document order,
   * the positions it matches in ledger order. The inner loop does not stop
   * at a match, so a record is collected once per item that matches it.
   */
  function Join(slots: seq<Slot>, files: seq<Option<FileDesc>>): (js: seq<nat>)
    ensures forall k :: 0 <= k < |js| ==> js[k] < |files|
  {
    if slots == [] then []
    else Join(slots[..|slots| - 1], files) + MatchesOf(slots[|slots| - 1].urlField, files)
  }

  /** The records at the given ledger positions, in that order. */
  function Pick<T>(xs: seq<T>, js: seq<nat>): (r: seq<T>)
    requires forall k :: 0 <= k < |js| ==> js[k] < |xs|
    ensures |r| == |js| && forall k :: 0 <= k < |js| ==> r[k] == xs[js[k]]
  {
    seq(|js|, k requires 0 <= k < |js| => xs[js[k]])
  }

  /**
   * The caption a ledger record ends up with after the scan: every matching
   * item overwrites it in turn, so the last matching item's caption wins; a
   * record no item matches keeps its own.
   */
  function FinalCaption(slots: seq<Slot>, file: Option<FileDesc>, prior: NullableString): (c: NullableString)
    ensures c != prior ==> c != Null && CountMatching(slots, file) > 0
  {
    if slots == [] then prior
    else
      var last := slots[|slots| - 1];
      if Matches(last.urlField, file) then SavedCaption(last)
      else FinalCaption(slots[..|slots| - 1], file, prior)
  }

  /** `save` throws: at least one item is scanned and some ledger record has no `file`. */
  predicate Throws(slots: seq<Slot>, files: seq<Option<FileDesc>>): (t: bool)
    ensures !t <==> |slots| == 0 || forall j :: 0 <= j < |files| ==> files[j].Some?
  {
    |slots| > 0 && exists j :: 0 <= j < |files| && files[j].None?
  }

  /** The first ledger record without a `file`: where the scan of the first item throws. */
  function FirstFileless(files: seq<Option<FileDesc>>): (j: nat)
    requires exists j :: 0 <= j < |files| && files[j].None?
    ensures j < |files| && files[j].None?
    ensures forall i :: 0 <= i < j ==> files[i].Some?
  {
    if files[0].None? then 0
    else
      assert exists j :: 0 <= j < |files[1..]| && files[1..][j].None? by {
        var j :| 0 <= j < |files| && files[j].None?;
        assert files[1..][j - 1] == files[j];
      }
      1 + FirstFileless(files[1..])
  }

  /** The number of items whose url text matches a record's file. */
  function CountMatching(slots: seq<Slot>, file: Option<FileDesc>): (c: nat)
    ensures c <= |slots|
  {
    if slots == [] then 0
    else CountMatching(slots[..|slots| - 1], file) + if Matches(slots[|slots| - 1].urlField, file) then 1 else 0
  }

  /** The inner loop of `save` one record further: position `j` is collected when it matches. */
  lemma MatchesOfStep(name: string, files: seq<Option<FileDesc>>, j: nat)
    requires j < |files|
    ensures MatchesOf(name, files[..j + 1]) == MatchesOf(name, files[..j]) + if Matches(name, files[j]) then [j] else []
  {
    assert files[..j + 1][..j] == files[..j];
  }

  /** The outer loop of `save` one item further. */
  lemma JoinStep(slots: seq<Slot>, i: nat, files: seq<Option<FileDesc>>)
    requires i < |slots|
    ensures Join(slots[..i + 1], files) == Join(slots[..i], files) + MatchesOf(slots[i].urlField, files)
  {
    assert slots[..i + 1][..i] == slots[..i];
  }

  /** One more item of the scan: it overwrites the caption exactly when it matches. */
  lemma FinalCaptionStep(slots: seq<Slot>, i: nat, file: Option<FileDesc>, prior: NullableString)
    requires i < |slots|
    ensures FinalCaption(slots[..i + 1], file, prior) ==
      if Matches(slots[i].urlField, file) then SavedCaption(slots[i]) else FinalCaption(slots[..i], file, prior)
  {
    assert slots[..i + 1][..i] == slots[..i];
  }

  /** Collecting a run of positions appends those records. */
  lemma PickConcat<T>(xs: seq<T>, js: seq<nat>, more: seq<nat>)
    requires forall k :: 0 <= k < |js| ==> js[k] < |xs|
    requires forall k :: 0 <= k < |more| ==> more[k] < |xs|
    ensures Pick(xs, js + more) == Pick(xs, js) + Pick(xs, more)
  {
  }

  /** One more record scanned: the collection grows by that record exactly when it matches. */
  lemma ScanStep<T>(xs: seq<T>, name: string, files: seq<Option<FileDesc>>, j: nat)
    requires j < |files| == |xs|
    ensures Pick(xs, MatchesOf(name, files[..j + 1])) ==
      Pick(xs, MatchesOf(name, files[..j])) + if Matches(name, files[j]) then [xs[j]] else []
  {
    MatchesOfStep(name, files, j);
    if Matches(name, files[j]) {
      PickAppend(xs, MatchesOf(name, files[..j]), j);
    }
  }

  /** Collecting one more position appends that record. */
  lemma PickAppend<T>(xs: seq<T>, js: seq<nat>, j: nat)
    requires forall k :: 0 <= k < |js| ==> js[k] < |xs|
    requires j < |xs|
    ensures Pick(xs, js + [j]) == Pick(xs, js) + [xs[j]]
  {
  }

  /** One item contributes a ledger position at most once, and exactly when it matches it. */
  lemma {:induction false} MatchesOfMultiplicity(name: string, files: seq<Option<FileDesc>>, j: nat)
    requires j < |files|
    ensures multiset(MatchesOf(name, files))[j] == if Matches(name, files[j]) then 1 else 0
  {
    var n := |files| - 1;
    var prefix := MatchesOf(name, files[..n]);
    var tail: seq<nat> := if Matches(name, files[n]) then [n] else [];
    assert MatchesOf(name, files) == prefix + tail;
    assert multiset(prefix + tail) == multiset(prefix) + multiset(tail);
    if j < n {
      MatchesOfMultiplicity(name, files[..n], j);
      assert files[..n][j] == files[j];
      assert multiset(tail)[j] == 0;
    } else {
      assert j !in prefix;
      var counts: multiset<nat> := multiset(prefix);
      assert counts[j] == 0;
    }
  }

  /** One more item at the end of the view adds its matches at the end of the collection. */
  lemma JoinSnoc(slots: seq<Slot>, s: Slot, files: seq<Option<FileDesc>>)
    ensures Join(slots + [s], files) == Join(slots, files) + MatchesOf(s.urlField, files)
  {
    var longer := slots + [s];
    assert longer[..|longer| - 1] == slots;
  }

  /** Collecting over a concatenation of item lists concatenates the collections. */
  lemma {:induction false} JoinAppend(a: seq<Slot>, b: seq<Slot>, files: seq<Option<FileDesc>>)
    ensures Join(a + b, files) == Join(a, files) + Join(b, files)
  {
    if b == [] {
      assert a + b == a;
    } else {
      var n := |b| - 1;
      var init, last := b[..n], b[n];
      var x, y, tail := Join(a, files), Join(init, files), MatchesOf(last.urlField, files);
      assert b == init + [last];
      assert Join(b, files) == y + tail by {
        JoinSnoc(init, last, files);
      }
      assert Join(a + b, files) == (x + y) + tail by {
        assert a + b == (a + init) + [last];
        JoinSnoc(a + init, last, files);
        JoinAppend(a, init, files);
      }
      assert (x + y) + tail == x + (y + tail);
    }
  }

  /**
   * A ledger record is collected once for every item whose url text equals
   * its file name, and a record no item matches is not collected at all.
   */
  lemma {:induction false} JoinMultiplicity(slots: seq<Slot>, files: seq<Option<FileDesc>>, j: nat)
    requires j < |files|
    ensures multiset(Join(slots, files))[j] == CountMatching(slots, files[j])
    ensures j in Join(slots, files) <==> CountMatching(slots, files[j]) > 0
  {
    if slots != [] {
      var n := |slots| - 1;
      JoinMultiplicity(slots[..n], files, j);
      MatchesOfMultiplicity(slots[n].urlField, files, j);
    }
  }

  /** `CountMatching` counts exactly the items that match. */
  lemma {:induction false} CountMatchingPositive(slots: seq<Slot>, file: Option<FileDesc>)
    ensures CountMatching(slots, file) > 0 <==> exists i :: 0 <= i < |slots| && Matches(slots[i].urlField, file)
  {
    if slots != [] {
      var n := |slots| - 1;
      CountMatchingPositive(slots[..n], file);
      if exists i :: 0 <= i < n + 1 && Matches(slots[i].urlField, file) {
        var i :| 0 <= i < n + 1 && Matches(slots[i].urlField, file);
        if i < n {
          assert slots[..n][i] == slots[i];
        }
      }
    }
  }

  /**
   * Join in view order: when every item matches exactly one record, the
   * collection has one record per item, item by item, whatever the ledger order.
   */
  lemma {:induction false} JoinFollowsViewOrder(slots: seq<Slot>, files: seq<Option<FileDesc>>)
    requires forall i :: 0 <= i < |slots| ==> |MatchesOf(slots[i].urlField, files)| == 1
    ensures |Join(slots, files)| == |slots|
    ensures forall i :: 0 <= i < |slots| ==> Matches(slots[i].urlField, files[Join(slots, files)[i]])
  {
    if slots != [] {
      var n := |slots| - 1;
      var init := slots[..n];
      assert forall i :: 0 <= i < |init| ==> init[i] == slots[i];
      JoinFollowsViewOrder(init, files);
      var prefix, last := Join(init, files), MatchesOf(slots[n].urlField, files);
      JoinSnoc(init, slots[n], files);
      assert init + [slots[n]] == slots;
      assert Join(slots, files) == prefix + last;
      MatchesOfSound(slots[n].urlField, files);
      assert |last| == 1 && Matches(slots[n].urlField, files[last[0]]);
      forall i | 0 <= i < |slots|
        ensures Matches(slots[i].urlField, files[(prefix + last)[i]])
      {
        if i < n {
          assert (prefix + last)[i] == prefix[i];
        } else {
          assert (prefix + last)[i] == last[0];
        }
      }
    }
  }

  /** The collection splits around any one item: what precedes it, its own matches, what follows it. */
  lemma {:induction false} JoinSplit(slots: seq<Slot>, k: nat, files: seq<Option<FileDesc>>)
    requires k < |slots|
    ensures Join(slots, files) ==
      Join(slots[..k], files) + MatchesOf(slots[k].urlField, files) + Join(slots[k + 1..], files)
  {
    var n := |slots| - 1;
    var last := MatchesOf(slots[n].urlField, files);
    if k == n {
      assert slots[k + 1..] == [];
    } else {
      var init := slots[..n];
      JoinSplit(init, k, files);
      assert init[..k] == slots[..k] && init[k] == slots[k];
      var after := slots[k + 1..];
      assert after[..|after| - 1] == init[k + 1..] && after[|after| - 1] == slots[n];
      var pre, mine, post := Join(slots[..k], files), MatchesOf(slots[k].urlField, files), Join(init[k + 1..], files);
      assert Join(after, files) == post + last;
      assert Join(slots, files) == (pre + mine + post) + last;
      assert (pre + mine + post) + last == pre + mine + (post + last);
    }
  }

  /**
   * Orphan omission: once an item's url text is edited to a value no record
   * matches, the item contributes nothing, and the collection shrinks by
   * exactly the records the item used to match.
   */
  lemma {:induction false} JoinOrphan(slots: seq<Slot>, k: nat, edited: Slot, files: seq<Option<FileDesc>>)
    requires k < |slots|
    requires forall j :: 0 <= j < |files| ==> !Matches(edited.urlField, files[j])
    ensures Join(slots[k := edited], files) == Join(slots[..k], files) + Join(slots[k + 1..], files)
    ensures |Join(slots, files)| == |Join(slots[k := edited], files)| + |MatchesOf(slots[k].urlField, files)|
  {
    var orphaned := slots[k := edited];
    assert orphaned[..k] == slots[..k] && orphaned[k + 1..] == slots[k + 1..] && orphaned[k] == edited;
    var pre, post := Join(slots[..k], files), Join(slots[k + 1..], files);
    MatchesOfNone(edited.urlField, files);
    JoinSplit(orphaned, k, files);
    assert Join(orphaned, files) == pre + [] + post;
    assert pre + [] == pre;
    JoinSplit(slots, k, files);
    assert |Join(slots, files)| == |pre| + |MatchesOf(slots[k].urlField, files)| + |post|;
  }

  /** An item whose url text no record's file name equals collects nothing. */
  lemma MatchesOfNone(name: string, files: seq<Option<FileDesc>>)
    requires forall j :: 0 <= j < |files| ==> !Matches(name, files[j])
    ensures MatchesOf(name, files) == []
  {
  }

  /** Item `i` matches the record and no later item does. */
  predicate IsLastMatch(slots: seq<Slot>, file: Option<FileDesc>, i: int)
  {
    0 <= i < |slots| && Matches(slots[i].urlField, file) &&
    forall l :: i < l < |slots| ==> !Matches(slots[l].urlField, file)
  }

  /** A record no item matches keeps its caption; one that is matched carries the last matching item's. */
  lemma {:induction false} FinalCaptionIsLastMatch(slots: seq<Slot>, file: Option<FileDesc>, prior: NullableString)
    ensures CountMatching(slots, file) == 0 ==> FinalCaption(slots, file, prior) == prior
    ensures CountMatching(slots, file) > 0 ==>
      exists i :: IsLastMatch(slots, file, i) && FinalCaption(slots, file, prior) == SavedCaption(slots[i])
  {
    if slots != [] {
      var n := |slots| - 1;
      var init := slots[..n];
      FinalCaptionIsLastMatch(init, file, prior);
      if Matches(slots[n].urlField, file) {
        assert IsLastMatch(slots, file, n);
      } else if CountMatching(init, file) > 0 {
        var i :| IsLastMatch(init, file, i) && FinalCaption(init, file, prior) == SavedCaption(init[i]);
        assert init[i] == slots[i];
        assert forall l :: i < l < n ==> init[l] == slots[l];
        assert IsLastMatch(slots, file, i);
      }
    }
  }

  /** Overwriting the captions a second time with the same items changes nothing. */
  lemma {:induction false} FinalCaptionIdempotent(slots: seq<Slot>, file: Option<FileDesc>, prior: NullableString)
    ensures FinalCaption(slots, file, FinalCaption(slots, file, prior)) == FinalCaption(slots, file, prior)
  {
    if slots != [] {
      var n := |slots| - 1;
      if !Matches(slots[n].urlField, file) {
        FinalCaptionIdempotent(slots[..n], file, prior);
      }
    }
  }

  /** Once some item matches a record, its final caption no longer depends on the caption it had before. */
  lemma {:induction false} FinalCaptionForgetsPrior(slots: seq<Slot>, file: Option<FileDesc>, p: NullableString, q: NullableString)
    ensures CountMatching(slots, file) > 0 ==> FinalCaption(slots, file, p) == FinalCaption(slots, file, q)
  {
    if slots != [] {
      FinalCaptionForgetsPrior(slots[..|slots| - 1], file, p, q);
    }
  }

  /** No item's url text equals the name of any file: nothing is collected. */
  lemma {:induction false} JoinNone(slots: seq<Slot>, files: seq<Option<FileDesc>>)
    requires forall i, j :: 0 <= i < |slots| && 0 <= j < |files| ==> !Matches(slots[i].urlField, files[j])
    ensures Join(slots, files) == []
  {
    if slots != [] {
      var n := |slots| - 1;
      var init := slots[..n];
      assert forall i :: 0 <= i < |init| ==> init[i] == slots[i];
      JoinNone(init, files);
      MatchesOfNone(slots[n].urlField, files);
    }
  }

  /** An item whose url text matches every record collects every record. */
  lemma {:induction false} MatchesOfAll(name: string, files: seq<Option<FileDesc>>)
    requires forall j :: 0 <= j < |files| ==> Matches(name, files[j])
    ensures |MatchesOf(name, files)| == |files|
    ensures forall j :: 0 <= j < |files| ==> j in MatchesOf(name, files)
  {
    if files != [] {
      var n := |files| - 1;
      assert forall j :: 0 <= j < n ==> files[..n][j] == files[j];
      MatchesOfAll(name, files[..n]);
    }
    MatchesOfComplete(name, files);
  }

  /**
   * Two items with the same url text, matching every record, collect every
   * record twice: the collection is twice as long as the ledger.
   */
  lemma JoinRepeatedItem(s: Slot, files: seq<Option<FileDesc>>)
    requires forall j :: 0 <= j < |files| ==> Matches(s.urlField, files[j])
    ensures |Join([s, s], files)| == 2 * |files|
  {
    MatchesOfAll(s.urlField, files);
    JoinSnoc([], s, files);
    JoinSnoc([s], s, files);
    assert [] + [s] == [s] && [s] + [s] == [s, s];
  }

  /**
   * An item's url text comes from a text input and holds no line break, so a
   * record whose file name has one is never matched by any item.
   */
  lemma LineBreakNameNeverMatches(s: Slot, file: Option<FileDesc>)
    requires NoLineBreaks(s.urlField)
    requires file.Some? && file.value.name.Str? && !NoLineBreaks(file.value.name.s)
    ensures !Matches(s.urlField, file)
  {
  }

  /**
   * Every item shows the same url text, and no record's file bears that name:
   * the scan does not throw, collects nothing, and no item matches any record.
   */
  lemma NoItemMatches(slots: seq<Slot>, name: string, files: seq<Option<FileDesc>>)
    requires forall i :: 0 <= i < |slots| ==> slots[i].urlField == name
    requires forall j :: 0 <= j < |files| ==> files[j].Some? && files[j].value.name != Str(name)
    ensures !Throws(slots, files) && Join(slots, files) == []
    ensures forall j :: 0 <= j < |files| ==> CountMatching(slots, files[j]) == 0
  {
    JoinNone(slots, files);
    forall j | 0 <= j < |files|
      ensures CountMatching(slots, files[j]) == 0
    {
      CountMatchingPositive(slots, files[j]);
    }
  }
}
