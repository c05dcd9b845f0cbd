// The blog server's route handlers over the module-level post store, with the
// admin switch every mutating route consults before it touches the store.
// Rendering a template is modelled as returning the data handed to it;
// ids and timestamps, which the server takes from the clock, are parameters.

module Routes {

  import opened PostStore

  /** The server's admin switch, fixed when the process starts. */
  const ADMIN_MODE: bool := true

  /** What a handler answers: a redirect or a rendered page with its data. */
  datatype Outcome =
    | RedirectHome                                  // res.redirect('/')
    | RedirectToPost(id: string)                    // res.redirect(`/posts/${id}`)
    | RenderIndex(posts: seq<Post>, isAdmin: bool)  // the listing page
    | RenderNewPost(isAdmin: bool)                  // the empty creation form
    | RenderViewPost(post: Post, isAdmin: bool)     // one post, read-only
    | RenderEditPost(post: Post, isAdmin: bool)     // the edit form, prefilled

  /** The running server: the admin switch and the post store. */
  class Blog {
    const adminMode: bool
    var posts: seq<Post>

    /** Start-up: the store holds only the welcome post. */
    constructor (adminMode: bool, seedCreatedAt: string)
      ensures this.adminMode == adminMode
      ensures posts == [SeedPost(seedCreatedAt)]
    {
      this.adminMode := adminMode;
      posts := [SeedPost(seedCreatedAt)];
    }

    /** GET /: every post, newest first, and the admin flag. */
    method Index() returns (o: Outcome)
      ensures o == RenderIndex(posts, adminMode)
    {
      o := RenderIndex(posts, adminMode);
    }

    /** GET /posts/new: the creation form for the admin, the listing for anyone else. */
    method NewPostForm() returns (o: Outcome)
      ensures o.RedirectHome? <==> !adminMode
      ensures o.RenderNewPost? <==> adminMode
      ensures o.RenderNewPost? ==> o.isAdmin
    {
      if !adminMode {
        return RedirectHome;
      }
      o := RenderNewPost(adminMode);
    }

    /** POST /posts: the admin's new post goes to the front of the store. */
    method CreatePost(title: string, content: string, id: string, createdAt: string)
      returns (o: Outcome)
      modifies this`posts
      ensures o == RedirectHome
      ensures !adminMode ==> posts == old(posts)
      ensures adminMode ==> |posts| == |old(posts)| + 1 && posts[0] == NewPost(id, title, content, createdAt)
      ensures adminMode ==> posts[1..] == old(posts)
    {
      if !adminMode {
        return RedirectHome;
      }
      var newPost := NewPost(id, title, content, createdAt);
      posts := [newPost] + posts;
      o := RedirectHome;
    }

    /** GET /posts/:id: the first post holding the id, or the listing when none does. */
    method ViewPost(id: string) returns (o: Outcome)
      ensures o.RedirectHome? <==> !HasId(posts, id)
      ensures HasId(posts, id) ==> o == RenderViewPost(posts[FindIndex(posts, id)], adminMode)
    {
      var post := Find(posts, id);
      if post.None? {
        return RedirectHome;
      }
      FindIsAtFindIndex(posts, id);
      o := RenderViewPost(post.value, adminMode);
    }

    /** GET /posts/:id/edit: gated, then the edit form prefilled with the first
        post holding the id, or the listing when none does. */
    method EditPost(id: string) returns (o: Outcome)
      ensures o.RedirectHome? <==> !adminMode || !HasId(posts, id)
      ensures adminMode && HasId(posts, id) ==> o == RenderEditPost(posts[FindIndex(posts, id)], true)
    {
      if !adminMode {
        return RedirectHome;
      }
      var post := Find(posts, id);
      if post.None? {
        return RedirectHome;
      }
      FindIsAtFindIndex(posts, id);
      o := RenderEditPost(post.value, adminMode);
    }

    /** POST /posts/:id/update: gated; the first post holding the id is revised
        in place and the caller is sent to it; a missing id sends the caller
        to the listing and changes nothing. */
    method UpdatePost(id: string, title: string, content: string, updatedAt: string)
      returns (o: Outcome)
      modifies this`posts
      ensures !adminMode || !HasId(old(posts), id) ==> o == RedirectHome && posts == old(posts)
      ensures adminMode && HasId(old(posts), id) ==>
        o == RedirectToPost(id) && posts == Updated(old(posts), id, title, content, updatedAt)
    {
      if !adminMode {
        return RedirectHome;
      }
      var postIndex := FindIndex(posts, id);
      if postIndex == -1 {
        return RedirectHome;
      }
      posts := posts[postIndex := Revise(posts[postIndex], title, content, updatedAt)];
      o := RedirectToPost(id);
    }

    /** POST /posts/:id/delete: gated; every post holding the id is dropped and
        the caller is sent to the listing, whether or not the id existed. */
    method DeletePost(id: string) returns (o: Outcome)
      modifies this`posts
      ensures o == RedirectHome
      ensures !adminMode ==> posts == old(posts)
      ensures adminMode ==> posts == RemoveId(old(posts), id)
    {
      if !adminMode {
        return RedirectHome;
      }
      posts := RemoveId(posts, id);
      o := RedirectHome;
    }
  }

  /** The server as the module starts it: `ADMIN_MODE` and the welcome post. */
  method StartServer(seedCreatedAt: string) returns (blog: Blog)
    ensures fresh(blog)
    ensures blog.adminMode == ADMIN_MODE && blog.adminMode
    ensures blog.posts == [SeedPost(seedCreatedAt)]
  {
    blog := new Blog(ADMIN_MODE, seedCreatedAt);
  }

  /** A session against a server started in admin mode: create "Hello"/"World",
      revise the welcome post, delete the new post twice. Returns the listing
      after each step. */
  method Walkthrough(seedAt: string, newId: string, createdAt: string, editedAt: string)
    returns (afterCreate: seq<Post>, afterUpdate: seq<Post>, afterDelete: seq<Post>,
             afterSecondDelete: seq<Post>, shown: Outcome)
    requires newId != "1"
    ensures afterCreate == [NewPost(newId, "Hello", "World", createdAt), SeedPost(seedAt)]
    ensures afterUpdate == [NewPost(newId, "Hello", "World", createdAt),
                            Revise(SeedPost(seedAt), "Welcome!", "Updated body", editedAt)]
    ensures afterDelete == [Revise(SeedPost(seedAt), "Welcome!", "Updated body", editedAt)]
    ensures afterSecondDelete == afterDelete
    ensures shown == RenderViewPost(Revise(SeedPost(seedAt), "Welcome!", "Updated body", editedAt), true)
  {
    var blog := StartServer(seedAt);
    var seed := SeedPost(seedAt);
    var created := NewPost(newId, "Hello", "World", createdAt);
    var o := blog.CreatePost("Hello", "World", newId, createdAt);
    assert blog.posts == [created, seed];
    afterCreate := blog.posts;
    o := blog.UpdatePost("1", "Welcome!", "Updated body", editedAt);
    assert FindIndex(afterCreate, "1") == 1;
    afterUpdate := blog.posts;
    assert afterUpdate == [created, Revise(seed, "Welcome!", "Updated body", editedAt)];
    shown := blog.ViewPost("1");
    o := blog.DeletePost(newId);
    afterDelete := blog.posts;
    o := blog.DeletePost(newId);
    afterSecondDelete := blog.posts;
  }
}
