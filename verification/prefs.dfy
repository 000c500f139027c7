/**
 The two edits the preferences panel makes to the `apps-to-new-workspace`
 settings key: adding the id typed into the entry, and removing an id with its
 trash button. The key is an in-memory list of strings here.
 */
module Prefs {
  import opened Text

  /** No id occurs twice in the list. */
  predicate NoDuplicates(apps: seq<string>) {
    forall i, j :: 0 <= i < j < |apps| ==> apps[i] != apps[j]
  }

  /** The list after the user submits `text`: the text is trimmed; a blank
      result or an id already in the list leaves the list alone; otherwise the
      trimmed id is appended at the end. */
  function AddApp(apps: seq<string>, text: string): (r: seq<string>)
    ensures AllSpace(text) ==> r == apps
    ensures Trim(text) in apps ==> r == apps
    ensures !AllSpace(text) && Trim(text) !in apps ==> r == apps + [Trim(text)]
    ensures forall x :: x in r <==> x in apps || (x == Trim(text) && !AllSpace(text))
  {
    var id := Trim(text);
    TrimEmptyIffAllSpace(text);
    if id == "" then apps
    else if id in apps then apps
    else apps + [id]
  }

  /** The list after the trash button of `id` is clicked: every occurrence of
      `id` is filtered out and the remaining ids keep their order. */
  function RemoveApp(apps: seq<string>, id: string): (r: seq<string>)
    ensures id !in r
    ensures forall x :: x in r <==> x in apps && x != id
    ensures multiset(r) == multiset(apps)[id := 0]
    ensures id !in apps ==> r == apps
  {
    if apps == [] then []
    else
      var rest := RemoveApp(apps[1..], id);
      assert apps == [apps[0]] + apps[1..];
      if apps[0] == id then rest else [apps[0]] + rest
  }

  lemma NoDuplicatesCons(x: string, xs: seq<string>)
    ensures NoDuplicates([x] + xs) <==> x !in xs && NoDuplicates(xs)
  {
    var ys := [x] + xs;
    if NoDuplicates(ys) {
      forall i, j | 0 <= i < j < |xs| ensures xs[i] != xs[j] {
        assert ys[i + 1] == xs[i] && ys[j + 1] == xs[j];
      }
      forall k | 0 <= k < |xs| ensures xs[k] != x {
        assert ys[k + 1] == xs[k] && ys[0] == x;
        assert ys[0] != ys[k + 1];
      }
    }
  }

  /** Adding keeps a duplicate-free list duplicate-free. */
  lemma AddPreservesNoDuplicates(apps: seq<string>, text: string)
    requires NoDuplicates(apps)
    ensures NoDuplicates(AddApp(apps, text))
  {
  }

  /** Submitting the same text a second time changes nothing more. */
  lemma AddIdempotent(apps: seq<string>, text: string)
    ensures AddApp(AddApp(apps, text), text) == AddApp(apps, text)
  {
  }

  /** Filtering distributes over concatenation: ids on either side of a split
      stay on their side and in their order. */
  lemma {:induction false} RemoveDistributes(a: seq<string>, b: seq<string>, id: string)
    ensures RemoveApp(a + b, id) == RemoveApp(a, id) + RemoveApp(b, id)
  {
    if a == [] {
      assert a + b == b;
    } else {
      assert (a + b)[1..] == a[1..] + b;
      RemoveDistributes(a[1..], b, id);
    }
  }

  /** Removing keeps a duplicate-free list duplicate-free. */
  lemma {:induction false} RemovePreservesNoDuplicates(apps: seq<string>, id: string)
    requires NoDuplicates(apps)
    ensures NoDuplicates(RemoveApp(apps, id))
  {
    if apps != [] {
      assert apps == [apps[0]] + apps[1..];
      NoDuplicatesCons(apps[0], apps[1..]);
      RemovePreservesNoDuplicates(apps[1..], id);
      if apps[0] != id {
        NoDuplicatesCons(apps[0], RemoveApp(apps[1..], id));
      }
    }
  }

  /** In a duplicate-free list an id occurs at one position only. */
  lemma OccursOnce(before: seq<string>, id: string, after: seq<string>)
    requires NoDuplicates(before + [id] + after)
    ensures id !in before && id !in after
  {
    var apps := before + [id] + after;
    assert apps[|before|] == id;
    forall k | 0 <= k < |before| ensures before[k] != id {
      assert apps[k] == before[k];
    }
    forall k | 0 <= k < |after| ensures after[k] != id {
      assert apps[|before| + 1 + k] == after[k];
    }
  }

  /** Removing the only occurrence of an id closes the gap it leaves: the
      ids before and after it are kept, in order. */
  lemma {:induction false} RemoveSingleOccurrence(before: seq<string>, id: string, after: seq<string>)
    requires id !in before && id !in after
    ensures RemoveApp(before + [id] + after, id) == before + after
  {
    RemoveDistributes(before + [id], after, id);
    RemoveDistributes(before, [id], id);
  }

  /** Round trip: removing a freshly added id gives back the list as it was
      before the addition. */
  lemma RemoveAfterAdd(apps: seq<string>, text: string)
    requires !AllSpace(text) && Trim(text) !in apps
    ensures RemoveApp(AddApp(apps, text), Trim(text)) == apps
  {
    RemoveDistributes(apps, [Trim(text)], Trim(text));
  }

  /** Removing an id and adding it again moves it to the end of the list. */
  lemma AddAfterRemove(apps: seq<string>, text: string)
    requires !AllSpace(text)
    ensures AddApp(RemoveApp(apps, Trim(text)), text) == RemoveApp(apps, Trim(text)) + [Trim(text)]
  {
  }
}
