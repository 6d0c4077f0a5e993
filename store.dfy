/** src/lib/store.ts: the mock authentication store and the in-memory story list. Store
    operations are modelled as atomic: the simulated network delays and the `catch` branches that
    only a failing delay could reach are not part of the model. */
module Store {
  import opened Common
  import opened Types

  datatype User = User(id: string, username: string, isAdmin: bool, avatarUrl: string)

  const RegularUser := User("1", "user", false, "/images/user-avatar.png")
  const AdminUser := User("2", "admin", true, "/images/admin-avatar.png")
  const InvalidCredentials := "Invalid username or password"

  /** The mock credential check of `login`: the user name is compared after `trim` and
      `toLowerCase`, the password exactly. */
  function CheckCredentials(username: string, password: string): (r: Option<User>)
    ensures r == Some(RegularUser) <==> ToLower(Trim(username)) == "user" && password == "password"
    ensures r == Some(AdminUser) <==> ToLower(Trim(username)) == "admin" && password == "admin123"
    ensures r.None? || r == Some(RegularUser) || r == Some(AdminUser)
  {
    var name := ToLower(Trim(username));
    if name == "user" && password == "password" then Some(RegularUser)
    else if name == "admin" && password == "admin123" then Some(AdminUser)
    else None
  }

  /** Passwords are compared exactly: a capitalised password is refused for every user name. */
  lemma PasswordIsCaseSensitive(username: string)
    ensures CheckCredentials(username, "Password") == None
    ensures CheckCredentials(username, "ADMIN123") == None
  {
    assert "Password" != "password" by { assert "Password"[0] != "password"[0]; }
    assert "Password" != "admin123";
    assert "ADMIN123" != "password";
    assert "ADMIN123" != "admin123" by { assert "ADMIN123"[0] != "admin123"[0]; }
  }

  /** Surrounding spaces and upper-case letters in the user name do not matter. */
  lemma UserNameIgnoresCaseAndSpaces(username: string, other: string, password: string)
    requires ToLower(Trim(username)) == ToLower(Trim(other))
    ensures CheckCredentials(username, password) == CheckCredentials(other, password)
  {
  }

  /** `useAuthStore`: `isAuthenticated` holds exactly when a user is signed in. */
  class AuthStore {
    var user: Option<User>
    var isAuthenticated: bool
    var isAuthLoading: bool
    var loginError: Option<string>

    ghost predicate Valid()
      reads this
    {
      isAuthenticated <==> user.Some?
    }

    constructor ()
      ensures Valid()
      ensures user == None && !isAuthenticated && !isAuthLoading && loginError == None
    {
      user, isAuthenticated, isAuthLoading, loginError := None, false, false, None;
    }

    /** `login`: signs in the matching account, or records the error and signs out. */
    method Login(username: string, password: string)
      modifies this
      ensures Valid()
      ensures !isAuthLoading
      ensures user == CheckCredentials(username, password)
      ensures user.Some? ==> loginError == None
      ensures user.None? ==> loginError == Some(InvalidCredentials)
    {
      isAuthLoading, loginError := true, None;
      var name := ToLower(Trim(username));
      if name == "user" && password == "password" {
        user, isAuthenticated, isAuthLoading, loginError := Some(RegularUser), true, false, None;
      } else if name == "admin" && password == "admin123" {
        user, isAuthenticated, isAuthLoading, loginError := Some(AdminUser), true, false, None;
      } else {
        loginError, isAuthLoading, isAuthenticated, user := Some(InvalidCredentials), false, false, None;
      }
    }

    /** `logout`: clears the user, the signed-in flag and any login error. */
    method Logout()
      modifies this`user, this`isAuthenticated, this`loginError
      ensures Valid()
      ensures user == None && !isAuthenticated && loginError == None
    {
      user, isAuthenticated, loginError := None, false, None;
    }
  }

  /** `Math.max(0, ...ids)`. */
  function MaxId(stories: seq<Story>): (m: int)
    ensures m >= 0
    ensures forall i :: 0 <= i < |stories| ==> stories[i].id <= m
    ensures m == 0 || exists i :: 0 <= i < |stories| && stories[i].id == m
  {
    if stories == [] then 0
    else
      var rest := MaxId(stories[..|stories| - 1]);
      var last := stories[|stories| - 1].id;
      if last > rest then last else rest
  }

  /** The id `addStory` gives a new story: larger than every id in use, and the smallest such
      number that is at least 1 and follows the largest id. */
  function NextStoryId(stories: seq<Story>): (id: int)
    ensures id >= 1
    ensures forall i :: 0 <= i < |stories| ==> stories[i].id < id
    ensures id == 1 || exists i :: 0 <= i < |stories| && stories[i].id == id - 1
  {
    MaxId(stories) + 1
  }

  predicate UniqueIds(stories: seq<Story>) {
    forall i, j :: 0 <= i < j < |stories| ==> stories[i].id != stories[j].id
  }

  /** `Partial<Story>` without `id`: the fields an update overwrites. */
  datatype StoryPatch = StoryPatch(
    title: Option<string>,
    author: Option<string>,
    coverImage: Option<string>,
    description: Option<string>,
    category: Option<string>,
    tags: Option<seq<string>>,
    likes: Option<int>,
    views: Option<int>,
    pages: Option<seq<Page>>)

  function Pick<T>(update: Option<T>, current: T): T {
    if update.Some? then update.value else current
  }

  /** `{ ...story, ...patch }`. */
  function Merge(story: Story, patch: StoryPatch): Story {
    story.(
      title := Pick(patch.title, story.title),
      author := Pick(patch.author, story.author),
      coverImage := Pick(patch.coverImage, story.coverImage),
      description := Pick(patch.description, story.description),
      category := Pick(patch.category, story.category),
      tags := Pick(patch.tags, story.tags),
      likes := Pick(patch.likes, story.likes),
      views := Pick(patch.views, story.views),
      pages := Pick(patch.pages, story.pages))
  }

  /** Merging keeps the id, applying a patch twice is applying it once, and an empty patch changes
      nothing. */
  lemma MergeProperties(story: Story, patch: StoryPatch)
    ensures Merge(story, patch).id == story.id
    ensures Merge(Merge(story, patch), patch) == Merge(story, patch)
    ensures Merge(story, StoryPatch(None, None, None, None, None, None, None, None, None)) == story
  {
  }

  /** `stories.map(story => story.id === id ? { ...story, ...patch } : story)`. */
  function Updated(stories: seq<Story>, id: int, patch: StoryPatch): (r: seq<Story>)
    ensures |r| == |stories|
    ensures forall i :: 0 <= i < |r| ==> r[i].id == stories[i].id
    ensures forall i :: 0 <= i < |r| && stories[i].id != id ==> r[i] == stories[i]
    ensures forall i :: 0 <= i < |r| && stories[i].id == id ==> r[i] == Merge(stories[i], patch)
  {
    seq(|stories|, i requires 0 <= i < |stories| => if stories[i].id == id then Merge(stories[i], patch) else stories[i])
  }

  /** `stories.filter(story => story.id !== id)`. */
  function WithoutId(stories: seq<Story>, id: int): (r: seq<Story>)
    ensures |r| <= |stories|
    ensures forall i :: 0 <= i < |r| ==> r[i].id != id && r[i] in stories
    ensures forall i :: 0 <= i < |stories| && stories[i].id != id ==> stories[i] in r
  {
    if stories == [] then []
    else if stories[0].id == id then WithoutId(stories[1..], id)
    else [stories[0]] + WithoutId(stories[1..], id)
  }

  /** Deleting keeps the survivors in their order: it distributes over concatenation. */
  lemma {:induction false} WithoutIdKeepsOrder(a: seq<Story>, b: seq<Story>, id: int)
    ensures WithoutId(a + b, id) == WithoutId(a, id) + WithoutId(b, id)
  {
    if a != [] {
      assert (a + b)[1..] == a[1..] + b;
      WithoutIdKeepsOrder(a[1..], b, id);
    } else {
      assert a + b == b;
    }
  }

  /** `stories.find(story => story.id === id)`: the first story with that id. */
  function FindById(stories: seq<Story>, id: int): (r: Option<Story>)
    ensures r.None? <==> forall i :: 0 <= i < |stories| ==> stories[i].id != id
    ensures r.Some? ==>
      && r.value.id == id
      && exists i :: 0 <= i < |stories| && stories[i] == r.value && forall j :: 0 <= j < i ==> stories[j].id != id
  {
    if stories == [] then None
    else if stories[0].id == id then Some(stories[0])
    else
      var r := FindById(stories[1..], id);
      assert r.Some? ==> exists i :: 0 <= i < |stories| && stories[i] == r.value && forall j :: 0 <= j < i ==> stories[j].id != id by {
        if r.Some? {
          var i :| 0 <= i < |stories[1..]| && stories[1..][i] == r.value && forall j :: 0 <= j < i ==> stories[1..][j].id != id;
          assert stories[i + 1] == r.value;
          forall j | 0 <= j < i + 1 ensures stories[j].id != id {
            if j > 0 { assert stories[1..][j - 1] == stories[j]; }
          }
        }
      }
      r
  }

  /** With unique ids, the story found is the one holding that id. */
  lemma FindUnique(stories: seq<Story>, i: int)
    requires UniqueIds(stories) && 0 <= i < |stories|
    ensures FindById(stories, stories[i].id) == Some(stories[i])
  {
  }

  /** After an update, finding by the updated id gives the merged story; other ids are unaffected. */
  lemma {:induction false} FindAfterUpdate(stories: seq<Story>, id: int, patch: StoryPatch, other: int)
    requires other != id
    ensures FindById(Updated(stories, id, patch), id) ==
            (if FindById(stories, id).Some? then Some(Merge(FindById(stories, id).value, patch)) else None)
    ensures FindById(Updated(stories, id, patch), other) == FindById(stories, other)
  {
    FindUpdatedId(stories, id, patch);
    FindOtherAfterUpdate(stories, id, patch, other);
  }

  lemma {:induction false} FindUpdatedId(stories: seq<Story>, id: int, patch: StoryPatch)
    ensures FindById(Updated(stories, id, patch), id) ==
            (if FindById(stories, id).Some? then Some(Merge(FindById(stories, id).value, patch)) else None)
  {
    if stories != [] {
      var u := Updated(stories, id, patch);
      assert u[1..] == Updated(stories[1..], id, patch);
      if stories[0].id != id {
        FindUpdatedId(stories[1..], id, patch);
      }
    }
  }

  lemma {:induction false} FindOtherAfterUpdate(stories: seq<Story>, id: int, patch: StoryPatch, other: int)
    requires other != id
    ensures FindById(Updated(stories, id, patch), other) == FindById(stories, other)
  {
    if stories != [] {
      var u := Updated(stories, id, patch);
      assert u[1..] == Updated(stories[1..], id, patch);
      assert u[0].id == stories[0].id;
      if stories[0].id != other {
        FindOtherAfterUpdate(stories[1..], id, patch, other);
      }
    }
  }

  /** After a delete, the id is gone and every other id finds what it found before. */
  lemma {:induction false} FindAfterDelete(stories: seq<Story>, id: int, other: int)
    requires other != id
    ensures FindById(WithoutId(stories, id), id) == None
    ensures FindById(WithoutId(stories, id), other) == FindById(stories, other)
  {
    if stories != [] {
      FindAfterDelete(stories[1..], id, other);
    }
  }

  /** A newly added story is found under its new id. */
  lemma FindAfterAdd(stories: seq<Story>, story: Story)
    ensures var added := story.(id := NextStoryId(stories));
      FindById(stories + [added], added.id) == Some(added)
  {
    var added := story.(id := NextStoryId(stories));
    assert (stories + [added])[|stories|] == added;
  }

  /** `useStoryStore`: the story list, whose ids stay unique under every operation. */
  class StoryStore {
    var stories: seq<Story>
    var isLoading: bool
    var error: Option<string>

    ghost predicate Valid()
      reads this
    {
      UniqueIds(stories)
    }

    constructor ()
      ensures Valid()
      ensures stories == [] && !isLoading && error == None
    {
      stories, isLoading, error := [], false, None;
    }

    /** `addStory`: appends the story under a fresh id. */
    method AddStory(story: Story)
      requires Valid()
      modifies this`stories, this`isLoading
      ensures Valid()
      ensures stories == old(stories) + [story.(id := NextStoryId(old(stories)))]
      ensures !isLoading
    {
      isLoading := true;
      var newId := MaxId(stories) + 1;
      stories := stories + [story.(id := newId)];
      isLoading := false;
    }

    /** `updateStory`: merges the patch into every story with that id. */
    method UpdateStory(id: int, patch: StoryPatch)
      requires Valid()
      modifies this`stories, this`isLoading
      ensures Valid()
      ensures stories == Updated(old(stories), id, patch)
      ensures !isLoading
    {
      isLoading := true;
      stories := Updated(stories, id, patch);
      isLoading := false;
    }

    /** `deleteStory`: removes every story with that id. */
    method DeleteStory(id: int)
      requires Valid()
      modifies this`stories, this`isLoading
      ensures Valid()
      ensures stories == WithoutId(old(stories), id)
      ensures !isLoading
    {
      isLoading := true;
      DeletePreservesUniqueIds(stories, id);
      stories := WithoutId(stories, id);
      isLoading := false;
    }

    /** `getStoryById`. */
    function GetStoryById(id: int): (r: Option<Story>)
      reads this
      ensures r.Some? ==> r.value in stories && r.value.id == id
      ensures r.None? ==> forall i :: 0 <= i < |stories| ==> stories[i].id != id
    {
      FindById(stories, id)
    }
  }

  lemma {:induction false} DeletePreservesUniqueIds(stories: seq<Story>, id: int)
    requires UniqueIds(stories)
    ensures UniqueIds(WithoutId(stories, id))
  {
    if stories != [] {
      var tail := stories[1..];
      assert UniqueIds(tail) by {
        forall a, b | 0 <= a < b < |tail| ensures tail[a].id != tail[b].id {
          assert tail[a] == stories[a + 1] && tail[b] == stories[b + 1];
        }
      }
      DeletePreservesUniqueIds(tail, id);
      var rest := WithoutId(tail, id);
      forall k | 0 <= k < |rest| ensures rest[k].id != stories[0].id {
        var m :| 0 <= m < |tail| && tail[m] == rest[k];
        assert tail[m] == stories[m + 1];
      }
    }
  }
}
