/**
 * The tag manager page: a list of tags and the text of the "Add new tag"
 * input, changed by the add and delete handlers. A new tag gets the id
 * `tags.length + 1`, which is unique only as long as no tag has been deleted.
 */
module TagsPage {
  import opened Seqs
  import opened Js

  datatype Tag = Tag(id: int, name: string, urlCount: int, color: string)

  /** The three tags the page starts with. */
  const InitialTags: seq<Tag> := [
    Tag(1, "Marketing", 15, "blue"),
    Tag(2, "Social Media", 23, "green"),
    Tag(3, "Blog Posts", 8, "purple")
  ]

  /** The tag a successful add appends to `tags`. */
  function NewTag(tags: seq<Tag>, name: string): Tag
  {
    Tag(|tags| + 1, name, 0, "gray")
  }

  /**
   * The tag list after the add handler: unchanged when the input trims to
   * nothing, otherwise one new tag with the trimmed name behind the old ones.
   */
  function AddedTags(tags: seq<Tag>, input: string): (r: seq<Tag>)
    ensures Trim(input) == "" ==> r == tags
    ensures Trim(input) != "" ==>
      && |r| == |tags| + 1
      && r[..|tags|] == tags
      && r[|tags|].id == |tags| + 1
      && r[|tags|].urlCount == 0 && r[|tags|].color == "gray"
      && r[|tags|].name == Trim(input)
      && !IsWhitespace(r[|tags|].name[0]) && !IsWhitespace(r[|tags|].name[|r[|tags|].name| - 1])
  {
    TrimSpec(input);
    if Trim(input) != "" then tags + [NewTag(tags, Trim(input))] else tags
  }

  /** The tag list after deleting `id`: every tag with another id, in order. */
  function RemovedTags(tags: seq<Tag>, id: int): (r: seq<Tag>)
    ensures forall t :: t in r <==> t in tags && t.id != id
    ensures forall t :: Count(r, t) == if t.id != id then Count(tags, t) else 0
    ensures IsSubsequence(r, tags)
    ensures (forall t :: t in tags ==> t.id != id) ==> r == tags
  {
    var keep := (t: Tag) => t.id != id;
    SelectMembers(tags, keep);
    forall t ensures Count(Select(tags, keep), t) == if t.id != id then Count(tags, t) else 0 {
      SelectMultiset(tags, keep, t);
    }
    SelectIsSubsequence(tags, keep);
    assert (forall t :: t in tags ==> t.id != id) ==> Select(tags, keep) == tags by {
      if forall t :: t in tags ==> t.id != id {
        SelectAll(tags, keep);
      }
    }
    Select(tags, keep)
  }

  predicate DistinctIds(tags: seq<Tag>)
  {
    forall i, j :: 0 <= i < j < |tags| ==> tags[i].id != tags[j].id
  }

  /** No id is above the length of the list, as when the ids are handed out by the add handler alone. */
  predicate IdsWithinLength(tags: seq<Tag>)
  {
    forall i :: 0 <= i < |tags| ==> tags[i].id <= |tags|
  }

  /** Adding keeps the ids distinct while no id exceeds the length of the list. */
  lemma AddKeepsIdsDistinct(tags: seq<Tag>, input: string)
    requires DistinctIds(tags) && IdsWithinLength(tags)
    ensures DistinctIds(AddedTags(tags, input)) && IdsWithinLength(AddedTags(tags, input))
  {
  }

  /** Deleting keeps the ids distinct, but may leave an id above the new length. */
  lemma RemoveKeepsIdsDistinct(tags: seq<Tag>, id: int)
    requires DistinctIds(tags)
    ensures DistinctIds(RemovedTags(tags, id))
  {
    SubsequenceDistinct(RemovedTags(tags, id), tags);
  }

  lemma {:induction false} SubsequenceDistinct(a: seq<Tag>, b: seq<Tag>)
    requires IsSubsequence(a, b) && DistinctIds(b)
    ensures DistinctIds(a)
    decreases |b|
  {
    if a != [] && b != [] {
      assert DistinctIds(b[1..]) by {
        forall i, j | 0 <= i < j < |b| - 1 ensures b[1..][i].id != b[1..][j].id {
          assert b[1..][i] == b[i + 1] && b[1..][j] == b[j + 1];
        }
      }
      if a[0] == b[0] {
        SubsequenceDistinct(a[1..], b[1..]);
        SubsequenceMembers(a[1..], b[1..]);
        forall j | 0 < j < |a| ensures a[0].id != a[j].id {
          assert a[1..][j - 1] == a[j];
          assert a[j] in a[1..];
          var k :| 0 <= k < |b| - 1 && b[1..][k] == a[j];
          assert b[k + 1] == a[j];
        }
        forall i, j | 0 <= i < j < |a| ensures a[i].id != a[j].id {
          if i > 0 {
            assert a[1..][i - 1] == a[i] && a[1..][j - 1] == a[j];
          }
        }
      } else {
        SubsequenceDistinct(a, b[1..]);
      }
    }
  }

  lemma {:induction false} SubsequenceMembers(a: seq<Tag>, b: seq<Tag>)
    requires IsSubsequence(a, b)
    ensures forall x :: x in a ==> exists k :: 0 <= k < |b| && b[k] == x
    decreases |b|
  {
    if a != [] && b != [] {
      if a[0] == b[0] {
        SubsequenceMembers(a[1..], b[1..]);
        forall x | x in a ensures exists k :: 0 <= k < |b| && b[k] == x {
          if x == a[0] {
            assert b[0] == x;
          } else {
            assert x in a[1..];
            var k :| 0 <= k < |b| - 1 && b[1..][k] == x;
            assert b[k + 1] == x;
          }
        }
      } else {
        SubsequenceMembers(a, b[1..]);
        forall x | x in a ensures exists k :: 0 <= k < |b| && b[k] == x {
          var k :| 0 <= k < |b| - 1 && b[1..][k] == x;
          assert b[k + 1] == x;
        }
      }
    }
  }

  /** Deleting id 2 from the initial tags leaves Marketing and Blog Posts. */
  lemma RemoveSocialMedia()
    ensures RemovedTags(InitialTags, 2) == [InitialTags[0], InitialTags[2]]
  {
    var keep := (t: Tag) => t.id != 2;
    var t0, t1, t2 := InitialTags[0], InitialTags[1], InitialTags[2];
    assert InitialTags[1..] == [t1, t2] && [t1, t2][1..] == [t2] && [t2][1..] == [];
    assert Select([t2], keep) == [t2];
    assert Select([t1, t2], keep) == [t2];
  }

  /**
   * The ids of the page are not unique: deleting "Social Media" (id 2) from
   * the initial tags and then adding a tag gives the new tag id 3, the id
   * "Blog Posts" still has.
   */
  lemma DeleteThenAddDuplicatesId()
    ensures var after := AddedTags(RemovedTags(InitialTags, 2), "News");
      |after| == 3 && after[1].name == "Blog Posts" && after[1].id == 3 && after[2].id == 3
      && !DistinctIds(after)
  {
    var kept := [InitialTags[0], InitialTags[2]];
    RemoveSocialMedia();
    assert Trim("News") == "News" by {
      assert !IsWhitespace('N') && !IsWhitespace('s');
    }
    var after := AddedTags(kept, "News");
    assert after == kept + [NewTag(kept, "News")];
    assert after[1].id == 3 && after[2].id == 3;
  }

  /** The tag manager's state. */
  class Page {
    var tags: seq<Tag>
    var newTag: string

    constructor()
      ensures tags == InitialTags && newTag == ""
    {
      tags := InitialTags;
      newTag := "";
    }

    /** Typing into the input. */
    method SetNewTag(value: string)
      modifies this
      ensures newTag == value && tags == old(tags)
    {
      newTag := value;
    }

    /** `handleAddTag`: adds the trimmed input as a tag and clears the input; a blank input changes nothing. */
    method HandleAddTag()
      modifies this
      ensures tags == AddedTags(old(tags), old(newTag))
      ensures newTag == if Trim(old(newTag)) != "" then "" else old(newTag)
    {
      var name := Trim(newTag);
      if name != "" {
        tags := tags + [NewTag(tags, name)];
        newTag := "";
      }
    }

    /** `handleDeleteTag`: drops every tag with the id. */
    method HandleDeleteTag(id: int)
      modifies this
      ensures tags == RemovedTags(old(tags), id) && newTag == old(newTag)
    {
      tags := RemovedTags(tags, id);
    }
  }
}
