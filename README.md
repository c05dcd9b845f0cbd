# Blog post store

A model of the core of a small single-author blog server (Express, `index.js`):
the in-memory list of posts that the route handlers read and rewrite, and the
admin switch (`ADMIN_MODE`) that every mutating route checks before it touches
the list.

- `post_store.dfy`, module `PostStore`: the post record, the lookups the handlers
  use (`find`, `findIndex`), the `filter` that deletes, and the record spread that
  updates. These are pure functions, and the lemmas state what they guarantee about
  identity, position and order.
- `routes.dfy`, module `Routes`: class `Blog` holds the admin flag as a `const` and
  the list as a `seq<Post>` field. It has one method per route. The read routes
  change nothing. The mutating routes reassign `posts` and state the new list in
  terms of the old one. `Walkthrough` is a client that runs a whole session
  against a server started with `ADMIN_MODE`.

Rendering a template is modelled as returning the data handed to it (an
`Outcome`). A redirect is an `Outcome` too. The clock values (`Date.now()` for a
new id, `toLocaleString()` for timestamps) are method parameters.

The code does not make ids unique or treat duplicate ids consistently; the model follows the code:

- Ids are not unique. A new id is the clock reading, and the code never checks it
  against existing posts. So the model does not assume uniqueness. The lemmas
  `CreateKeepsIdsUnique`, `UpdateKeepsIdsUnique` and `DeleteKeepsIdsUnique` say
  when uniqueness survives each operation.
- With duplicate ids, update revises only the first post holding the id
  (`findIndex`). Delete drops every post holding it (`filter`).
  `DuplicateIdsQuirk` states this.

## Model

| member | source | states |
|---|---|---|
| `PostStore.SeedPost` | index.js:21-28 | the seed post has id `'1'`, the welcome title and content, the given creation time and no `updatedAt` |
| `PostStore.NewPost` | index.js:52-57 | a created post has the given id, title, content and creation time, and no `updatedAt` |
| `PostStore.FindIndex` | index.js:89-90 | returns -1 exactly when no post holds the id. Otherwise it returns an in-range index that holds the id, and no earlier index holds it |
| `PostStore.Find` | index.js:64-65 | returns nothing exactly when no post holds the id. Otherwise it returns a post of the store that holds the id |
| `PostStore.RemoveId` | index.js:104 | no post of the result holds the id, and the result is no longer than the store |
| `PostStore.RemoveIdAbsent` | index.js:104 | deleting an id that no post holds leaves the store unchanged |
| `PostStore.RemoveIdMembers` | index.js:104 | a post survives a delete exactly when it was in the store and does not hold the id |
| `PostStore.RemoveIdAppend` | index.js:104 | deleting from two stretches of the store joined together is the same as deleting from each stretch and joining the results |
| `PostStore.Revise` | index.js:92-97 | the revised post keeps its `id` and `createdAt`, takes the new title and content, and has `updatedAt` set |
| `PostStore.Updated` | index.js:89-97 | the length is kept, and every position keeps its id and `createdAt`. A missing id changes nothing. Otherwise the first matching position gets the new title, content and `updatedAt`, and every other position is unchanged |
| `PostStore.FindIsAtFindIndex` | index.js:64-90 | `find` returns the post at the index `findIndex` returns, or nothing when that index is -1 |
| `PostStore.FindIndexOnlySeesIds` | index.js:89 | two stores with the same ids at each position get the same `findIndex` answer, so an update does not move where an id is found |
| `PostStore.CreateThenFind` | index.js:52-58 | after the new post is put at the front, `find` and `findIndex` return it under its id, even if an older post already has that id |
| `PostStore.CreateKeepsIdsUnique` | index.js:53-58 | putting a post at the front keeps ids unique when its id is not already in the store |
| `PostStore.UpdateThenFind` | index.js:89-98 | after an update of a present id, looking that id up returns the revised post: same id and `createdAt`, new title, content and `updatedAt` |
| `PostStore.UpdateKeepsIdsUnique` | index.js:92-97 | an update keeps ids unique |
| `PostStore.RemoveIdLength` | index.js:104 | the delete shortens the store by exactly the number of posts holding the id |
| `PostStore.RemoveIdKeepsOrder` | index.js:104 | what remains after a delete is a subsequence of the old store, so the relative order is kept |
| `PostStore.RemoveIdIsTheFilter` | index.js:104 | the result of a delete is the only subsequence of the old store that has no post with the id and has that length |
| `PostStore.UniqueDeleteCutsOne` | index.js:104 | with unique ids, deleting a present id removes exactly the one post at its `findIndex` position |
| `PostStore.DeleteCutsAt` | index.js:104 | when only position `i` holds the id, a delete removes exactly that position and keeps the rest |
| `PostStore.DeleteKeepsIdsUnique` | index.js:104 | a delete keeps ids unique |
| `PostStore.DuplicateIdsQuirk` | index.js:89-104 | when two posts share an id, an update leaves the later one unchanged and the id still present. A delete removes both, so no post holds the id and the store shrinks by at least two |
| `Routes.Blog.constructor` | index.js:12-28 | at start the store holds only the welcome post with id `'1'`, and the admin flag is the configured one |
| `Routes.StartServer` | index.js:12-28 | the server starts with the admin flag equal to `ADMIN_MODE`, which is on, and a store holding only the welcome post |
| `Routes.Blog.Index` | index.js:31-35 | the listing shows every post in the current store order, with the admin flag |
| `Routes.Blog.NewPostForm` | index.js:40-46 | the form is shown exactly when admin is on. Otherwise the route redirects to `/` |
| `Routes.Blog.CreatePost` | index.js:48-60 | always redirects to `/`. With admin off the store is unchanged. With admin on the new post (no `updatedAt`) is at index 0 and the old posts follow in their order |
| `Routes.Blog.ViewPost` | index.js:63-70 | redirects to `/` exactly when no post holds the id. Otherwise it renders the first post holding it, with the admin flag |
| `Routes.Blog.EditPost` | index.js:73-83 | redirects to `/` exactly when admin is off or no post holds the id. Otherwise it renders the edit form for the first post holding it |
| `Routes.Blog.UpdatePost` | index.js:85-99 | with admin off or a missing id, redirects to `/` and leaves the store unchanged. Otherwise it redirects to `/posts/:id`, and the store is the old one with only the first match revised |
| `Routes.Blog.DeletePost` | index.js:102-106 | always redirects to `/`. With admin off the store is unchanged. Otherwise every post holding the id is dropped and the rest keep their order |
| `Routes.Walkthrough` | index.js:48-106 | in a session with admin on: after creating "Hello"/"World" the listing is [new, welcome]. Updating the welcome post keeps that order and revises it. Deleting the new post leaves [welcome]. Deleting it again changes nothing |

## Left out

- Express setup: the view engine, the body parser, static files, and `app.listen` with its console output (index.js:1-18, 108-111). These are framework plumbing.
- Template rendering and the page-title strings passed to templates (`'New Post'`, `'Edit: ' + title`). A rendered page is modelled as the post or list and the admin flag it receives.
- The clock: `Date.now().toString()` for ids and `new Date().toLocaleString()` for timestamps are parameters. As a result the model proves nothing about ids being distinct or increasing. It also does not prove that `updatedAt` is not earlier than `createdAt`, since the timestamps are locale-formatted strings with no order.
- Request parsing: `req.body` and `req.params` are plain string parameters. A missing form field, which JavaScript would store as `undefined`, is not modelled.
- Concurrency: each handler runs to completion before the next, as on Node's single event loop.
- `ADMIN_MODE` is the constant `true` in the source. The class takes the flag at construction so that the denied path can be stated too. `Routes.ADMIN_MODE` keeps the source's value.
