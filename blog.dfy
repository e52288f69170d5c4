/**
 * The Blog page: a search box and a row of category buttons narrow the list
 * of posts; the first featured post is shown in its own section above the
 * grid, and featured posts are kept out of the grid.
 */
module Blog {
  import opened Seqs
  import opened Text

  /** The fields of a blog post that the page's logic reads. */
  datatype BlogPost = BlogPost(id: nat, title: string, excerpt: string, category: string, featured: bool)

  const AllCategories := "all"

  /** The `blogPosts` records, restricted to the fields above. */
  const BlogPosts: seq<BlogPost> := [
    BlogPost(1, "The Future of Web Development: Trends to Watch in 2024",
      "Explore the latest trends shaping web development, from AI integration to serverless architecture.",
      "Web Development", true),
    BlogPost(2, "Building Scalable Microservices with Docker and Kubernetes",
      "Learn how to architect and deploy microservices using containerization technologies.",
      "DevOps", false),
    BlogPost(3, "AI-Powered Applications: From Concept to Production",
      "A comprehensive guide to building and deploying AI applications in real-world scenarios.",
      "Artificial Intelligence", true)
  ]

  /** `blogPosts.map(post => post.category)`. */
  function CategoryOf(posts: seq<BlogPost>): (r: seq<string>)
    ensures |r| == |posts|
    ensures forall i :: 0 <= i < |posts| ==> r[i] == posts[i].category
  {
    if posts == [] then [] else [posts[0].category] + CategoryOf(posts[1..])
  }

  /** `["all", ...new Set(blogPosts.map(post => post.category))]`: the category buttons. */
  function Categories(posts: seq<BlogPost>): (r: seq<string>)
    ensures |r| >= 1 && r[0] == AllCategories
    ensures Distinct(r[1..])
    ensures forall i :: 0 <= i < |posts| ==> posts[i].category in r[1..]
    ensures forall c :: c in r[1..] ==> exists i :: 0 <= i < |posts| && posts[i].category == c
  {
    var d := Dedup(CategoryOf(posts));
    assert ([AllCategories] + d)[1..] == d;
    [AllCategories] + d
  }

  /** The buttons after "all" follow the order in which categories first occur among the posts. */
  lemma CategoriesInFirstSeenOrder(posts: seq<BlogPost>, i: nat, j: nat)
    requires 1 <= i < j < |Categories(posts)|
    ensures IndexOf(CategoryOf(posts), Categories(posts)[i]) < IndexOf(CategoryOf(posts), Categories(posts)[j])
  {
    var d := Dedup(CategoryOf(posts));
    assert Categories(posts)[i] == d[i - 1] && Categories(posts)[j] == d[j - 1];
    DedupFirstSeenOrder(CategoryOf(posts));
  }

  /** `["all", ...new Set(...)]` keeps a post category spelled "all" as a second button. */
  lemma AllButtonRepeatedByAllCategory(posts: seq<BlogPost>)
    requires exists i :: 0 <= i < |posts| && posts[i].category == AllCategories
    ensures !Distinct(Categories(posts))
  {
    var r := Categories(posts);
    var i :| 0 <= i < |posts| && posts[i].category == AllCategories;
    assert AllCategories in r[1..];
    var k :| 0 <= k < |r[1..]| && r[1..][k] == AllCategories;
    assert r[0] == r[k + 1];
  }

  /**
   * The search test: the lower-cased term occurs somewhere in the lower-cased
   * title or the lower-cased excerpt; the empty term matches every post.
   */
  function MatchesSearch(post: BlogPost, searchTerm: string): (r: bool)
    ensures r <==> (exists i: nat :: OccursAt(Lower(post.title), Lower(searchTerm), i)) ||
                   (exists i: nat :: OccursAt(Lower(post.excerpt), Lower(searchTerm), i))
    ensures searchTerm == "" ==> r
  {
    IncludesIffOccurs(Lower(post.title), Lower(searchTerm));
    IncludesIffOccurs(Lower(post.excerpt), Lower(searchTerm));
    Includes(Lower(post.title), Lower(searchTerm)) || Includes(Lower(post.excerpt), Lower(searchTerm))
  }

  /** The category test: "all" lets every post through; any other category only the posts filed under it. */
  function MatchesCategory(post: BlogPost, selectedCategory: string): (r: bool)
    ensures selectedCategory == AllCategories ==> r
    ensures selectedCategory != AllCategories ==> (r <==> post.category == selectedCategory)
  {
    selectedCategory == AllCategories || post.category == selectedCategory
  }

  /** The callback given to `blogPosts.filter`. */
  function PostMatcher(searchTerm: string, selectedCategory: string): BlogPost -> bool {
    post => MatchesSearch(post, searchTerm) && MatchesCategory(post, selectedCategory)
  }

  /** `filteredPosts`: the posts that pass both tests, and every one of them. */
  function FilteredPosts(posts: seq<BlogPost>, searchTerm: string, selectedCategory: string): (r: seq<BlogPost>)
    ensures |r| <= |posts|
    ensures forall i :: 0 <= i < |r| ==>
      r[i] in posts && MatchesSearch(r[i], searchTerm) && MatchesCategory(r[i], selectedCategory)
    ensures forall i :: 0 <= i < |posts| && MatchesSearch(posts[i], searchTerm) && MatchesCategory(posts[i], selectedCategory) ==>
      posts[i] in r
  {
    Filter(posts, PostMatcher(searchTerm, selectedCategory))
  }

  /** `featuredPost`: the first featured post; it does not depend on the search or the category. */
  function FeaturedPost(posts: seq<BlogPost>): (r: Option<BlogPost>)
    ensures r.None? <==> forall i :: 0 <= i < |posts| ==> !posts[i].featured
    ensures r.Some? ==> r.value in posts && r.value.featured
  {
    Find(posts, (post: BlogPost) => post.featured)
  }

  predicate IsRegular(post: BlogPost) {
    !post.featured
  }

  /** `regularPosts`: the grid, the filtered posts that are not featured. */
  function RegularPosts(posts: seq<BlogPost>, searchTerm: string, selectedCategory: string): (r: seq<BlogPost>)
    ensures forall i :: 0 <= i < |r| ==> r[i] in FilteredPosts(posts, searchTerm, selectedCategory) && !r[i].featured
    ensures forall post :: post in FilteredPosts(posts, searchTerm, selectedCategory) && !post.featured ==> post in r
  {
    Filter(FilteredPosts(posts, searchTerm, selectedCategory), IsRegular)
  }

  /** Whether "No articles match your search criteria." is shown: exactly when no post passes both tests. */
  function ShowsNoMatch(posts: seq<BlogPost>, searchTerm: string, selectedCategory: string): (r: bool)
    ensures r <==> forall i :: 0 <= i < |posts| ==>
      !(MatchesSearch(posts[i], searchTerm) && MatchesCategory(posts[i], selectedCategory))
  {
    var f := FilteredPosts(posts, searchTerm, selectedCategory);
    assert |f| > 0 ==> f[0] in f;
    |f| == 0
  }

  /** The filtered posts keep the page's order, and a post is kept exactly when it passes both tests. */
  lemma FilteredPostsSpec(posts: seq<BlogPost>, searchTerm: string, selectedCategory: string)
    ensures IsSubsequence(FilteredPosts(posts, searchTerm, selectedCategory), posts)
    ensures forall post :: post in FilteredPosts(posts, searchTerm, selectedCategory) <==>
      post in posts && MatchesSearch(post, searchTerm) && MatchesCategory(post, selectedCategory)
  {
    FilterIsSubsequence(posts, PostMatcher(searchTerm, selectedCategory));
  }

  /** With the initial state (`""`, `"all"`) every post is listed. */
  lemma NoCriteriaKeepsEveryPost(posts: seq<BlogPost>)
    ensures FilteredPosts(posts, "", AllCategories) == posts
  {
    assert forall post :: post in posts ==> MatchesSearch(post, "") && MatchesCategory(post, AllCategories);
    FilterKeepsAll(posts, PostMatcher("", AllCategories));
  }

  /** The first featured post, or none, with every post before it not featured. */
  lemma FeaturedPostSpec(posts: seq<BlogPost>)
    ensures FeaturedPost(posts).None? <==> forall i :: 0 <= i < |posts| ==> !posts[i].featured
    ensures FeaturedPost(posts).Some? ==>
      exists k :: 0 <= k < |posts| && posts[k] == FeaturedPost(posts).value && posts[k].featured &&
                  forall j :: 0 <= j < k ==> !posts[j].featured
  {
  }

  /** The grid is the filtered list without featured posts, in the same order. */
  lemma RegularPostsSpec(posts: seq<BlogPost>, searchTerm: string, selectedCategory: string)
    ensures IsSubsequence(RegularPosts(posts, searchTerm, selectedCategory), FilteredPosts(posts, searchTerm, selectedCategory))
    ensures forall post :: post in RegularPosts(posts, searchTerm, selectedCategory) <==>
      post in FilteredPosts(posts, searchTerm, selectedCategory) && !post.featured
  {
    FilterIsSubsequence(FilteredPosts(posts, searchTerm, selectedCategory), IsRegular);
  }

  /** The callback that would select the grid from `blogPosts` in one pass. */
  function GridMatcher(searchTerm: string, selectedCategory: string): BlogPost -> bool {
    post => MatchesSearch(post, searchTerm) && MatchesCategory(post, selectedCategory) && !post.featured
  }

  /** The grid holds, in page order, the posts that pass both tests and are not featured. */
  lemma RegularPostsDirect(posts: seq<BlogPost>, searchTerm: string, selectedCategory: string)
    ensures RegularPosts(posts, searchTerm, selectedCategory) == Filter(posts, GridMatcher(searchTerm, selectedCategory))
  {
    FilterFilter(posts, PostMatcher(searchTerm, selectedCategory), IsRegular, GridMatcher(searchTerm, selectedCategory));
  }

  /** When only featured posts match, the grid is empty yet the no-match message stays hidden. */
  lemma OnlyFeaturedMatchesHidesMessage(posts: seq<BlogPost>, searchTerm: string, selectedCategory: string)
    requires FilteredPosts(posts, searchTerm, selectedCategory) != []
    requires forall post :: post in FilteredPosts(posts, searchTerm, selectedCategory) ==> post.featured
    ensures RegularPosts(posts, searchTerm, selectedCategory) == []
    ensures !ShowsNoMatch(posts, searchTerm, selectedCategory)
  {
    var f := FilteredPosts(posts, searchTerm, selectedCategory);
    assert forall i :: 0 <= i < |f| ==> f[i] in f;
    FilterKeepsNone(f, IsRegular);
  }

  /**
   * A featured post other than the first one is never rendered: the featured
   * section shows a different post, and the grid leaves out every featured post.
   */
  lemma LaterFeaturedPostNeverShown(posts: seq<BlogPost>, post: BlogPost, searchTerm: string, selectedCategory: string)
    requires post in posts && post.featured && FeaturedPost(posts) != Some(post)
    ensures FeaturedPost(posts).Some? && FeaturedPost(posts).value != post
    ensures post !in RegularPosts(posts, searchTerm, selectedCategory)
  {
    RegularPostsSpec(posts, searchTerm, selectedCategory);
  }

  /** When no category repeats, the buttons are "all" followed by the categories in post order. */
  lemma CategoriesOfDistinct(posts: seq<BlogPost>)
    requires Distinct(CategoryOf(posts))
    ensures Categories(posts) == [AllCategories] + CategoryOf(posts)
  {
    DedupOfDistinct(CategoryOf(posts));
  }

  /** The categories of the site's posts, in page order. */
  lemma BlogPostsCategoryList()
    ensures CategoryOf(BlogPosts) == ["Web Development", "DevOps", "Artificial Intelligence"]
  {
    var cs := CategoryOf(BlogPosts);
    assert cs[0] == BlogPosts[0].category && cs[1] == BlogPosts[1].category && cs[2] == BlogPosts[2].category;
  }

  lemma ThreeDistinct(a: string, b: string, c: string)
    requires |a| != |b| && |b| != |c| && |a| != |c|
    ensures Distinct([a, b, c])
  {
  }

  /** On the site's own data the categories are the three distinct ones, in order. */
  lemma BlogPostsCategories()
    ensures Categories(BlogPosts) == [AllCategories] + ["Web Development", "DevOps", "Artificial Intelligence"]
  {
    BlogPostsCategoryList();
    ThreeDistinct("Web Development", "DevOps", "Artificial Intelligence");
    CategoriesOfDistinct(BlogPosts);
  }

  /** On the site's own data the third post, although featured, never appears. */
  lemma BlogPostsThirdPostHidden(searchTerm: string, selectedCategory: string)
    ensures FeaturedPost(BlogPosts) == Some(BlogPosts[0])
    ensures BlogPosts[2] !in RegularPosts(BlogPosts, searchTerm, selectedCategory)
  {
    LaterFeaturedPostNeverShown(BlogPosts, BlogPosts[2], searchTerm, selectedCategory);
  }

  /** The page's state: the search box and the selected category. */
  class BlogPage {
    const posts: seq<BlogPost>
    var searchTerm: string
    var selectedCategory: string

    constructor (posts: seq<BlogPost>)
      ensures this.posts == posts
      ensures searchTerm == "" && selectedCategory == AllCategories
      ensures Filtered() == posts
    {
      this.posts := posts;
      searchTerm := "";
      selectedCategory := AllCategories;
      NoCriteriaKeepsEveryPost(posts);
    }

    function Filtered(): seq<BlogPost>
      reads this
    {
      FilteredPosts(posts, searchTerm, selectedCategory)
    }

    /** The search box's `onChange`. */
    method SetSearchTerm(value: string)
      modifies this
      ensures searchTerm == value && selectedCategory == old(selectedCategory)
    {
      searchTerm := value;
    }

    /** A category button; one exists for each entry of `Categories(posts)`. */
    method SelectCategory(category: string)
      requires category in Categories(posts)
      modifies this
      ensures selectedCategory == category && searchTerm == old(searchTerm)
    {
      selectedCategory := category;
    }

    /** "Clear Filters": back to the initial state, which lists every post. */
    method ClearFilters()
      modifies this
      ensures searchTerm == "" && selectedCategory == AllCategories
      ensures Filtered() == posts
    {
      searchTerm := "";
      selectedCategory := AllCategories;
      NoCriteriaKeepsEveryPost(posts);
    }
  }
}
