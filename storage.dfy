/** The browser-side list of posts kept under one `localStorage` key. The
    key's text is abstracted to what parsing it yields. */
module Storage {
  import opened PlakaTypes

  /** What the storage slot holds: nothing, a list that parses, or text
      that does not parse (or an empty string, which reads as absent). */
  datatype Slot = Absent | Json(posts: seq<PlakaPost>) | Corrupt

  /** `getPlakaPosts`: the stored list, or the empty list when nothing is
      stored or parsing fails; no error reaches the caller. */
  function Read(slot: Slot): (r: seq<PlakaPost>)
    ensures slot.Json? ==> r == slot.posts
    ensures !slot.Json? ==> r == []
  {
    if slot.Json? then slot.posts else []
  }

  /** `posts.filter(post => post.id !== id)`. */
  function Without(s: seq<PlakaPost>, id: int): (r: seq<PlakaPost>)
    ensures |r| <= |s|
  {
    if s == [] then []
    else if s[0].id == id then Without(s[1..], id)
    else [s[0]] + Without(s[1..], id)
  }

  /** Exactly the posts with another id are kept. */
  lemma {:induction false} WithoutMembers(s: seq<PlakaPost>, id: int, p: PlakaPost)
    ensures p in Without(s, id) <==> p in s && p.id != id
  {
    if s != [] {
      WithoutMembers(s[1..], id, p);
      assert s == [s[0]] + s[1..];
    }
  }

  /** Filtering a concatenation filters each part: the kept posts stay in
      their original order. */
  lemma {:induction false} WithoutAppend(s: seq<PlakaPost>, t: seq<PlakaPost>, id: int)
    ensures Without(s + t, id) == Without(s, id) + Without(t, id)
  {
    if s == [] {
      assert s + t == t;
    } else {
      assert (s + t)[1..] == s[1..] + t;
      WithoutAppend(s[1..], t, id);
    }
  }

  /** Deleting an id that no post carries leaves the list as it is. */
  lemma {:induction false} WithoutAbsent(s: seq<PlakaPost>, id: int)
    requires forall i :: 0 <= i < |s| ==> s[i].id != id
    ensures Without(s, id) == s
  {
    if s != [] {
      WithoutAbsent(s[1..], id);
      assert s == [s[0]] + s[1..];
    }
  }

  /** Deleting an id removes every post that carries it. */
  lemma WithoutRemovesAll(s: seq<PlakaPost>, id: int)
    ensures forall p :: p in Without(s, id) ==> p.id != id
  {
    forall p | p in Without(s, id)
      ensures p.id != id
    {
      WithoutMembers(s, id, p);
    }
  }

  /** Saving a post and then deleting its id leaves the other posts as
      they were stored before, with the earlier copies of that id gone too. */
  lemma SaveThenDelete(p: PlakaPost, s: seq<PlakaPost>)
    ensures Without([p] + s, p.id) == Without(s, p.id)
  {
    WithoutAppend([p], s, p.id);
    assert Without([p], p.id) == [];
  }

  /** The storage slot, with `setItem` either succeeding or throwing (a
      full or disabled storage); a throwing write is caught and leaves the
      slot as it was. */
  class PostStorage {
    var slot: Slot

    constructor()
      ensures slot == Absent
    {
      slot := Absent;
    }

    /** `getPlakaPosts`. */
    method GetPosts() returns (posts: seq<PlakaPost>)
      ensures posts == Read(slot)
    {
      posts := Read(slot);
    }

    /** `savePlakaPost`: the new post goes first, the others keep their order. */
    method Save(post: PlakaPost, writable: bool)
      modifies this
      ensures writable ==> slot == Json([post] + Read(old(slot)))
      ensures !writable ==> slot == old(slot)
    {
      var existing := GetPosts();
      if writable {
        slot := Json([post] + existing);
      }
    }

    /** `deletePlakaPost`: every post with that id goes, the others keep
      their order. */
    method Delete(id: int, writable: bool)
      modifies this
      ensures writable ==> slot == Json(Without(Read(old(slot)), id))
      ensures !writable ==> slot == old(slot)
    {
      var posts := GetPosts();
      if writable {
        slot := Json(Without(posts, id));
      }
    }
  }
}
