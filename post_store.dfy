// The in-memory post store of the blog server: the post record, the lookups the
// route handlers use (`find`, `findIndex`), the `filter` that deletes, the
// record spread that updates, and what these guarantee about order and identity.

module PostStore {

  datatype Option<T> = None | Some(value: T)

  /** One blog post. Timestamps are the already formatted strings the server
      stores; `updatedAt` is absent until the first update. */
  datatype Post = Post(id: string, title: string, content: string,
                       createdAt: string, updatedAt: Option<string>)

  /** The post the store holds at start-up. */
  function SeedPost(createdAt: string): (p: Post)
    ensures p.id == "1" && p.title == "Welcome to My Blog"
    ensures p.content == "This is the first post on my new blog. More content coming soon!"
    ensures p.createdAt == createdAt && p.updatedAt.None?
  {
    Post("1", "Welcome to My Blog",
         "This is the first post on my new blog. More content coming soon!",
         createdAt, None)
  }

  /** A freshly created post: no `updatedAt` yet. */
  function NewPost(id: string, title: string, content: string, createdAt: string): (p: Post)
    ensures p.id == id && p.title == title && p.content == content
    ensures p.createdAt == createdAt && p.updatedAt.None?
  {
    Post(id, title, content, createdAt, None)
  }

  /** Some post in `ps` carries `id`. */
  predicate HasId(ps: seq<Post>, id: string) {
    exists i :: 0 <= i < |ps| && ps[i].id == id
  }

  /** The number of posts in `ps` that carry `id`. */
  function Count(ps: seq<Post>, id: string): nat {
    if |ps| == 0 then 0
    else (if ps[0].id == id then 1 else 0) + Count(ps[1..], id)
  }

  /** No two posts of `ps` share an id. */
  ghost predicate UniqueIds(ps: seq<Post>) {
    forall i, j :: 0 <= i < j < |ps| ==> ps[i].id != ps[j].id
  }

  /** `s` is `t` with some elements deleted and the rest in their original order. */
  ghost predicate Subsequence(s: seq<Post>, t: seq<Post>)
    decreases |t|
  {
    if s == [] then true
    else if t == [] then false
    else (s[0] == t[0] && Subsequence(s[1..], t[1..])) || Subsequence(s, t[1..])
  }

  /** `posts.findIndex(p => p.id === id)`: the first index holding `id`, or -1. */
  function FindIndex(ps: seq<Post>, id: string): (r: int)
    ensures -1 <= r < |ps|
    ensures r == -1 <==> !HasId(ps, id)
    ensures 0 <= r ==> ps[r].id == id && forall j :: 0 <= j < r ==> ps[j].id != id
  {
    if |ps| == 0 then -1
    else if ps[0].id == id then 0
    else
      var k := FindIndex(ps[1..], id);
      assert forall j :: 0 < j < |ps| ==> ps[j] == ps[1..][j - 1];
      if k == -1 then -1 else k + 1
  }

  /** `posts.find(p => p.id === id)`: the first post holding `id`, or None. */
  function Find(ps: seq<Post>, id: string): (r: Option<Post>)
    ensures r.None? <==> !HasId(ps, id)
    ensures r.Some? ==> r.value in ps && r.value.id == id
  {
    if |ps| == 0 then None
    else if ps[0].id == id then Some(ps[0])
    else
      assert forall j :: 0 < j < |ps| ==> ps[j] == ps[1..][j - 1];
      Find(ps[1..], id)
  }

  /** `posts.filter(p => p.id !== id)`: every post not holding `id`, in order. */
  function RemoveId(ps: seq<Post>, id: string): (r: seq<Post>)
    ensures !HasId(r, id)
    ensures |r| <= |ps|
  {
    if |ps| == 0 then []
    else if ps[0].id == id then RemoveId(ps[1..], id)
    else
      assert ps == [ps[0]] + ps[1..];
      [ps[0]] + RemoveId(ps[1..], id)
  }

  /** `{...p, title, content, updatedAt}`: the post edited in place. */
  function Revise(p: Post, title: string, content: string, updatedAt: string): (q: Post)
    ensures q.id == p.id && q.createdAt == p.createdAt
    ensures q.title == title && q.content == content && q.updatedAt == Some(updatedAt)
  {
    p.(title := title, content := content, updatedAt := Some(updatedAt))
  }

  /** The store after the update handler: the first post holding `id` is
      revised, every other post stays where and as it was. */
  function Updated(ps: seq<Post>, id: string, title: string, content: string,
                   updatedAt: string): (r: seq<Post>)
    ensures |r| == |ps|
    ensures forall j :: 0 <= j < |ps| ==> r[j].id == ps[j].id && r[j].createdAt == ps[j].createdAt
    ensures !HasId(ps, id) ==> r == ps
    ensures HasId(ps, id) ==>
      var i := FindIndex(ps, id);
      r[i].title == title && r[i].content == content && r[i].updatedAt == Some(updatedAt) &&
      forall j :: 0 <= j < |ps| && j != i ==> r[j] == ps[j]
  {
    var i := FindIndex(ps, id);
    if i == -1 then ps else ps[i := Revise(ps[i], title, content, updatedAt)]
  }

  // ---------------------------------------------------------------------------
  // find and findIndex agree

  /** The post `find` returns is the one at the index `findIndex` returns. */
  lemma {:induction false} FindIsAtFindIndex(ps: seq<Post>, id: string)
    ensures Find(ps, id) == if FindIndex(ps, id) == -1 then None else Some(ps[FindIndex(ps, id)])
  {
    if |ps| > 0 && ps[0].id != id {
      FindIsAtFindIndex(ps[1..], id);
    }
  }

  /** Two stores with the same ids position by position answer `findIndex` alike. */
  lemma {:induction false} FindIndexOnlySeesIds(ps: seq<Post>, qs: seq<Post>, id: string)
    requires |ps| == |qs|
    requires forall j :: 0 <= j < |ps| ==> ps[j].id == qs[j].id
    ensures FindIndex(ps, id) == FindIndex(qs, id)
  {
    if |ps| > 0 && ps[0].id != id {
      FindIndexOnlySeesIds(ps[1..], qs[1..], id);
    }
  }

  // ---------------------------------------------------------------------------
  // Create

  /** A created post is the first one found under its id, even when an older
      post already holds that id. */
  lemma CreateThenFind(ps: seq<Post>, id: string, title: string, content: string, createdAt: string)
    ensures Find([NewPost(id, title, content, createdAt)] + ps, id) == Some(NewPost(id, title, content, createdAt))
    ensures FindIndex([NewPost(id, title, content, createdAt)] + ps, id) == 0
  {
  }

  /** Creating under an id no post holds keeps the ids unique. */
  lemma CreateKeepsIdsUnique(ps: seq<Post>, p: Post)
    requires UniqueIds(ps) && !HasId(ps, p.id)
    ensures UniqueIds([p] + ps)
  {
    var s := [p] + ps;
    forall i, j | 0 <= i < j < |s| ensures s[i].id != s[j].id {
      if i == 0 {
        assert s[j] == ps[j - 1];
      } else {
        assert s[i] == ps[i - 1] && s[j] == ps[j - 1];
      }
    }
  }

  // ---------------------------------------------------------------------------
  // Update

  /** After an update of a present id, looking the id up gives the revised
      post: same id and creation time, the new title, content and update time. */
  lemma UpdateThenFind(ps: seq<Post>, id: string, title: string, content: string, updatedAt: string)
    requires HasId(ps, id)
    ensures Find(Updated(ps, id, title, content, updatedAt), id)
         == Some(Revise(ps[FindIndex(ps, id)], title, content, updatedAt))
  {
    var r := Updated(ps, id, title, content, updatedAt);
    FindIndexOnlySeesIds(ps, r, id);
    FindIsAtFindIndex(r, id);
  }

  /** An update keeps the ids unique (it changes no id). */
  lemma UpdateKeepsIdsUnique(ps: seq<Post>, id: string, title: string, content: string, updatedAt: string)
    requires UniqueIds(ps)
    ensures UniqueIds(Updated(ps, id, title, content, updatedAt))
  {
  }

  // ---------------------------------------------------------------------------
  // Delete

  /** Deleting an id no post holds leaves the store as it was. */
  lemma {:induction false} RemoveIdAbsent(ps: seq<Post>, id: string)
    requires !HasId(ps, id)
    ensures RemoveId(ps, id) == ps
  {
    if |ps| > 0 {
      assert ps[0].id != id;
      assert !HasId(ps[1..], id) by {
        forall j | 0 <= j < |ps[1..]| ensures ps[1..][j].id != id {
          assert ps[1..][j] == ps[j + 1];
        }
      }
      RemoveIdAbsent(ps[1..], id);
      assert ps == [ps[0]] + ps[1..];
    }
  }

  /** A post survives a delete exactly when it was stored and does not hold the id. */
  lemma {:induction false} RemoveIdMembers(ps: seq<Post>, id: string, p: Post)
    ensures p in RemoveId(ps, id) <==> p in ps && p.id != id
  {
    if |ps| > 0 {
      RemoveIdMembers(ps[1..], id, p);
      assert ps == [ps[0]] + ps[1..];
    }
  }

  /** Deleting removes exactly the posts holding the id: the length drops by their number. */
  lemma {:induction false} RemoveIdLength(ps: seq<Post>, id: string)
    ensures |RemoveId(ps, id)| == |ps| - Count(ps, id)
  {
    if |ps| > 0 {
      RemoveIdLength(ps[1..], id);
    }
  }

  /** Deleting keeps the remaining posts in their relative order. */
  lemma {:induction false} RemoveIdKeepsOrder(ps: seq<Post>, id: string)
    ensures Subsequence(RemoveId(ps, id), ps)
  {
    if |ps| > 0 {
      RemoveIdKeepsOrder(ps[1..], id);
      var rest := RemoveId(ps[1..], id);
      if ps[0].id != id {
        assert ([ps[0]] + rest)[1..] == rest;
      } else if rest != [] {
        assert Subsequence(rest, ps[1..]);
      }
    }
  }

  /** A subsequence free of `id` can be no longer than the posts not holding `id`. */
  lemma {:induction false} SubsequenceWithoutIdIsShort(s: seq<Post>, t: seq<Post>, id: string)
    requires Subsequence(s, t)
    requires forall p :: p in s ==> p.id != id
    ensures |s| <= |t| - Count(t, id)
    decreases |t|
  {
    if s != [] {
      assert t != [];
      if s[0] == t[0] && Subsequence(s[1..], t[1..]) {
        SubsequenceWithoutIdIsShort(s[1..], t[1..], id);
      } else {
        SubsequenceWithoutIdIsShort(s, t[1..], id);
      }
    } else if t != [] {
      CountAtMostLength(t, id);
    }
  }

  lemma {:induction false} CountAtMostLength(t: seq<Post>, id: string)
    ensures Count(t, id) <= |t|
  {
    if |t| > 0 {
      CountAtMostLength(t[1..], id);
    }
  }

  /** The filter is the only order-keeping selection that drops every post
      holding `id` and nothing else: any subsequence of `ps` free of `id`
      and as long as `RemoveId(ps, id)` is `RemoveId(ps, id)`. */
  lemma {:induction false} RemoveIdIsTheFilter(s: seq<Post>, ps: seq<Post>, id: string)
    requires Subsequence(s, ps)
    requires forall p :: p in s ==> p.id != id
    requires |s| == |ps| - Count(ps, id)
    ensures s == RemoveId(ps, id)
    decreases |ps|
  {
    if ps == [] {
    } else if s == [] {
      RemoveIdLength(ps, id);
    } else if ps[0].id == id {
      assert s[0] != ps[0];
      RemoveIdIsTheFilter(s, ps[1..], id);
    } else if s[0] == ps[0] && Subsequence(s[1..], ps[1..]) {
      RemoveIdIsTheFilter(s[1..], ps[1..], id);
      assert s == [s[0]] + s[1..];
    } else {
      SubsequenceWithoutIdIsShort(s, ps[1..], id);
      assert false;
    }
  }

  /** With unique ids, deleting a present id cuts out exactly the one post at
      its `findIndex` position. */
  lemma UniqueDeleteCutsOne(ps: seq<Post>, id: string)
    requires UniqueIds(ps) && HasId(ps, id)
    ensures RemoveId(ps, id) == ps[..FindIndex(ps, id)] + ps[FindIndex(ps, id) + 1..]
  {
    DeleteCutsAt(ps, id, FindIndex(ps, id));
  }

  /** Deleting an id that only position `i` holds cuts out position `i`. */
  lemma DeleteCutsAt(ps: seq<Post>, id: string, i: nat)
    requires i < |ps| && ps[i].id == id
    requires forall k :: 0 <= k < |ps| && k != i ==> ps[k].id != id
    ensures RemoveId(ps, id) == ps[..i] + ps[i + 1..]
  {
    var before, after := ps[..i], ps[i + 1..];
    assert ps == before + ([ps[i]] + after);
    assert !HasId(before, id) by {
      assert forall k :: 0 <= k < |before| ==> before[k] == ps[k];
    }
    assert !HasId(after, id) by {
      assert forall k :: 0 <= k < |after| ==> after[k] == ps[i + 1 + k];
    }
    RemoveIdAbsent(before, id);
    RemoveIdAbsent(after, id);
    RemoveIdAppend(before, [ps[i]] + after, id);
    RemoveIdAppend([ps[i]], after, id);
  }

  /** Deleting from a concatenation deletes from each part. */
  lemma {:induction false} RemoveIdAppend(a: seq<Post>, b: seq<Post>, id: string)
    ensures RemoveId(a + b, id) == RemoveId(a, id) + RemoveId(b, id)
  {
    if |a| == 0 {
      assert a + b == b;
    } else {
      assert (a + b)[1..] == a[1..] + b;
      RemoveIdAppend(a[1..], b, id);
    }
  }

  lemma UniqueTail(ps: seq<Post>)
    requires UniqueIds(ps) && |ps| > 0
    ensures UniqueIds(ps[1..])
  {
    forall a, b | 0 <= a < b < |ps[1..]| ensures ps[1..][a].id != ps[1..][b].id {
      assert ps[1..][a] == ps[a + 1] && ps[1..][b] == ps[b + 1];
    }
  }

  /** Deleting keeps the ids unique. */
  lemma {:induction false} DeleteKeepsIdsUnique(ps: seq<Post>, id: string)
    requires UniqueIds(ps)
    ensures UniqueIds(RemoveId(ps, id))
  {
    if |ps| > 0 {
      UniqueTail(ps);
      DeleteKeepsIdsUnique(ps[1..], id);
      var rest := RemoveId(ps[1..], id);
      if ps[0].id != id {
        var s := [ps[0]] + rest;
        forall a, b | 0 <= a < b < |s| ensures s[a].id != s[b].id {
          if a == 0 {
            assert s[b] in rest;
            RemoveIdMembers(ps[1..], id, s[b]);
            var k :| 0 <= k < |ps[1..]| && ps[1..][k] == s[b];
            assert ps[k + 1] == s[b];
          } else {
            assert s[a] == rest[a - 1] && s[b] == rest[b - 1];
          }
        }
      }
    }
  }

  // ---------------------------------------------------------------------------
  // Duplicate ids: update and delete disagree

  /** Two posts holding the same id count at least twice. */
  lemma {:induction false} TwoHoldersCountTwice(ps: seq<Post>, id: string, i: nat, j: nat)
    requires i < j < |ps| && ps[i].id == id && ps[j].id == id
    ensures Count(ps, id) >= 2
  {
    if i == 0 {
      assert ps[1..][j - 1] == ps[j];
      assert HasId(ps[1..], id);
      CountPositiveWhenHeld(ps[1..], id, j - 1);
    } else {
      assert ps[1..][i - 1] == ps[i] && ps[1..][j - 1] == ps[j];
      TwoHoldersCountTwice(ps[1..], id, i - 1, j - 1);
    }
  }

  lemma {:induction false} CountPositiveWhenHeld(ps: seq<Post>, id: string, k: nat)
    requires k < |ps| && ps[k].id == id
    ensures Count(ps, id) >= 1
  {
    if k > 0 {
      assert ps[1..][k - 1] == ps[k];
      CountPositiveWhenHeld(ps[1..], id, k - 1);
    }
  }

  /** When two posts share an id, an update revises only the first of them
      (the later one keeps its old title and content under the same id),
      while a delete drops both. */
  lemma DuplicateIdsQuirk(ps: seq<Post>, id: string, i: nat, j: nat,
                          title: string, content: string, updatedAt: string)
    requires i < j < |ps| && ps[i].id == id && ps[j].id == id
    ensures Updated(ps, id, title, content, updatedAt)[j] == ps[j]
    ensures HasId(Updated(ps, id, title, content, updatedAt), id)
    ensures !HasId(RemoveId(ps, id), id)
    ensures |RemoveId(ps, id)| <= |ps| - 2
  {
    assert FindIndex(ps, id) <= i;
    TwoHoldersCountTwice(ps, id, i, j);
    RemoveIdLength(ps, id);
  }
}
