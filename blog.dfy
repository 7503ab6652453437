/**
 * The blog store: append-only lists of categories and tags, a fixed list of
 * posts with two exact-match queries over it, and the add-category dialog's
 * guard that trims the typed name and ignores a blank one.
 */
module Blog {
  import opened Seqs
  import opened Text

  datatype Category = Category(id: int, name: string, count: int)

  datatype Tag = Tag(id: int, name: string, count: int)

  /** A post names its category and its tags by string; nothing checks that they exist. */
  datatype Post = Post(id: int, title: string, excerpt: string, category: string, tags: seq<string>)

  const SeedCategories: seq<Category> := [
    Category(1, "Technology", 15),
    Category(2, "Design", 8),
    Category(3, "Programming", 12)
  ]

  const SeedTags: seq<Tag> := [
    Tag(1, "React", 10),
    Tag(2, "JavaScript", 18),
    Tag(3, "CSS", 7),
    Tag(4, "UI/UX", 5)
  ]

  const SeedPosts: seq<Post> := [
    Post(1, "Getting Started with React Context API",
         "Learn how to manage state efficiently in React applications.",
         "Technology", ["React", "JavaScript"]),
    Post(2, "Modern CSS Techniques",
         "Explore advanced CSS features for better web design.",
         "Design", ["CSS", "UI/UX"]),
    Post(3, "JavaScript Best Practices",
         "Write cleaner and more maintainable JavaScript code.",
         "Programming", ["JavaScript"])
  ]

  // ---------------------------------------------------------------------------
  // Queries over the posts

  function InCategory(name: string): (keep: Post -> bool) {
    (post: Post) => post.category == name
  }

  function HasTag(name: string): (keep: Post -> bool) {
    (post: Post) => name in post.tags
  }

  /** getPostsByCategory: exactly the posts whose category is `name`, in their original order. */
  function PostsByCategory(posts: seq<Post>, name: string): (r: seq<Post>)
    ensures IsSubsequence(r, posts)
    ensures forall i :: 0 <= i < |r| ==> r[i].category == name
    ensures forall i :: 0 <= i < |posts| && posts[i].category == name ==> posts[i] in r
    ensures forall x :: multiset(r)[x] == if x.category == name then multiset(posts)[x] else 0
  {
    FilterExact(InCategory(name), posts);
    assert forall i :: 0 <= i < |posts| ==> multiset(posts)[posts[i]] > 0;
    Filter(InCategory(name), posts)
  }

  /** getPostsByTag: exactly the posts whose tag list contains `name`, in their original order. */
  function PostsByTag(posts: seq<Post>, name: string): (r: seq<Post>)
    ensures IsSubsequence(r, posts)
    ensures forall i :: 0 <= i < |r| ==> name in r[i].tags
    ensures forall i :: 0 <= i < |posts| && name in posts[i].tags ==> posts[i] in r
    ensures forall x :: multiset(r)[x] == if name in x.tags then multiset(posts)[x] else 0
  {
    FilterExact(HasTag(name), posts);
    assert forall i :: 0 <= i < |posts| ==> multiset(posts)[posts[i]] > 0;
    Filter(HasTag(name), posts)
  }

  /** The two queries' contracts pin their results down: nothing else meets them. */
  lemma QueriesDetermined(posts: seq<Post>, name: string, r: seq<Post>)
    requires IsSubsequence(r, posts)
    ensures (forall x :: multiset(r)[x] == if x.category == name then multiset(posts)[x] else 0)
            ==> r == PostsByCategory(posts, name)
    ensures (forall x :: multiset(r)[x] == if name in x.tags then multiset(posts)[x] else 0)
            ==> r == PostsByTag(posts, name)
  {
    if forall x :: multiset(r)[x] == if x.category == name then multiset(posts)[x] else 0 {
      FilterUnique(InCategory(name), posts, r);
    }
    if forall x :: multiset(r)[x] == if name in x.tags then multiset(posts)[x] else 0 {
      FilterUnique(HasTag(name), posts, r);
    }
  }

  /** Of the seed posts, only the first is about Technology. */
  lemma SeedTechnologyPosts()
    ensures PostsByCategory(SeedPosts, "Technology") == [SeedPosts[0]]
    ensures PostsByCategory(SeedPosts, "Technology")[0].title == "Getting Started with React Context API"
  {
  }

  /** Of the seed posts, the first and the third are tagged JavaScript. */
  lemma SeedJavaScriptPosts()
    ensures PostsByTag(SeedPosts, "JavaScript") == [SeedPosts[0], SeedPosts[2]]
  {
  }

  // ---------------------------------------------------------------------------
  // Appending categories and tags

  /** addCategory's update of the list; `id` stands for the clock reading. */
  function AppendCategory(categories: seq<Category>, name: string, id: int): (r: seq<Category>) {
    categories + [Category(id, name, 0)]
  }

  /** addTag's update of the list; `id` stands for the clock reading. */
  function AppendTag(tags: seq<Tag>, name: string, id: int): (r: seq<Tag>) {
    tags + [Tag(id, name, 0)]
  }

  /** One new category with count 0 at the end; every earlier one keeps its value and place. */
  lemma AppendCategoryFrame(categories: seq<Category>, name: string, id: int)
    ensures |AppendCategory(categories, name, id)| == |categories| + 1
    ensures forall i :: 0 <= i < |categories| ==> AppendCategory(categories, name, id)[i] == categories[i]
    ensures AppendCategory(categories, name, id)[|categories|] == Category(id, name, 0)
  {
  }

  /** A name already present is added again: the list then holds two categories of that name. */
  lemma AppendCategoryDuplicates(categories: seq<Category>, name: string, id: int, k: nat)
    requires k < |categories| && categories[k].name == name
    ensures |AppendCategory(categories, name, id)| == |categories| + 1
    ensures exists i, j :: (0 <= i < j < |AppendCategory(categories, name, id)| &&
                            AppendCategory(categories, name, id)[i].name == name &&
                            AppendCategory(categories, name, id)[j].name == name)
  {
    var r := AppendCategory(categories, name, id);
    assert r[k].name == name && r[|categories|].name == name;
  }

  /** One new tag with count 0 at the end; every earlier one keeps its value and place. */
  lemma AppendTagFrame(tags: seq<Tag>, name: string, id: int)
    ensures |AppendTag(tags, name, id)| == |tags| + 1
    ensures forall i :: 0 <= i < |tags| ==> AppendTag(tags, name, id)[i] == tags[i]
    ensures AppendTag(tags, name, id)[|tags|] == Tag(id, name, 0)
  {
  }

  /** A tag name already present is added again: the list then holds two tags of that name. */
  lemma AppendTagDuplicates(tags: seq<Tag>, name: string, id: int, k: nat)
    requires k < |tags| && tags[k].name == name
    ensures |AppendTag(tags, name, id)| == |tags| + 1
    ensures exists i, j :: (0 <= i < j < |AppendTag(tags, name, id)| &&
                            AppendTag(tags, name, id)[i].name == name &&
                            AppendTag(tags, name, id)[j].name == name)
  {
    var r := AppendTag(tags, name, id);
    assert r[k].name == name && r[|tags|].name == name;
  }

  /** handleAddCategory's effect on the list: add the trimmed name unless it is empty. */
  function ConfirmCategory(categories: seq<Category>, input: string, id: int): (r: seq<Category>) {
    var name := Trim(input);
    if name != "" then AppendCategory(categories, name, id) else categories
  }

  /** Blank input leaves the list as it was; any other input adds its trimmed form, which has no whitespace at either end. */
  lemma ConfirmCategoryGuard(categories: seq<Category>, input: string, id: int)
    ensures AllWhitespace(input) ==> ConfirmCategory(categories, input, id) == categories
    ensures !AllWhitespace(input) ==>
      ConfirmCategory(categories, input, id) == AppendCategory(categories, Trim(input), id) &&
      Trim(input) != "" && !IsWhitespace(Trim(input)[0]) && !IsWhitespace(Trim(input)[|Trim(input)| - 1])
  {
  }

  // ---------------------------------------------------------------------------
  // The store

  /** The blog provider's state cells. `posts` has no setter, so it is a constant of the store. */
  class BlogStore {
    var categories: seq<Category>
    var tags: seq<Tag>
    const posts: seq<Post>

    constructor ()
      ensures categories == SeedCategories && tags == SeedTags && posts == SeedPosts
    {
      categories := SeedCategories;
      tags := SeedTags;
      posts := SeedPosts;
    }

    /** Appends one category, whatever names are already there; the tags stay. */
    method AddCategory(name: string, id: int)
      modifies this
      ensures categories == AppendCategory(old(categories), name, id)
      ensures tags == old(tags)
    {
      categories := AppendCategory(categories, name, id);
    }

    /** Appends one tag, whatever names are already there; the categories stay. */
    method AddTag(name: string, id: int)
      modifies this
      ensures tags == AppendTag(old(tags), name, id)
      ensures categories == old(categories)
    {
      tags := AppendTag(tags, name, id);
    }
  }

  /**
   * The add-category dialog's confirm action: a name that trims to nothing
   * is ignored, any other is added in its trimmed form.
   */
  method HandleAddCategory(store: BlogStore, input: string, id: int) returns (added: bool)
    modifies store
    ensures added <==> !AllWhitespace(input)
    ensures store.categories == ConfirmCategory(old(store.categories), input, id)
    ensures store.tags == old(store.tags)
  {
    var name := Trim(input);
    added := name != "";
    if added {
      store.AddCategory(name, id);
    }
  }
}
