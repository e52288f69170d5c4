# Interactive state of the TechFlow brochure site, in Dafny

The TechFlow site is a static marketing site built from React components. Almost all of it is
presentation. The little logic it has lives in event handlers and in values computed during
rendering. This project models that logic and proves what it does:

- **Projects carousel** (`ProjectsSection`): one index. The previous/next buttons move it
  cyclically and a dot click jumps to a slide.
- **Testimonials carousel** (`TestimonialsSection`): an index plus an autoplay flag. The flag
  is changed by the timer, the arrows, the dots and pointer enter/leave.
- **Blog page** (`Blog`): the category buttons, the search-and-category filter, the featured
  post, the grid of regular posts, the "no articles" message and "Clear Filters".
- **Careers page** (`Careers`): the department/remote filter, its buttons and the reset.
- **Floating navbar** (`FloatingNavbar`): hide on scroll down, show on scroll up or near the
  top, and the active-link look.
- **Main navbar** (`Navbar`): the `scrolled` flag, the mobile-menu toggle, closing the menu on
  a route change, and link highlighting.
- **Service cards** (`Services`): the first three features and technologies, then a `+N` count.

Three helper modules hold the shared pieces:

- `Seqs`: JavaScript's `filter`, `find` and the first-seen order of a `Set`. Each comes with
  order and membership lemmas.
- `Text`: ASCII `toLowerCase` and `includes`.
- `CarouselIndex`: the `(i + 1) % n` and `(i - 1 + n) % n` rules that both carousels use.

Components whose state changes in place are classes. Their methods have `modifies this` and
state the whole new state. Values computed from props and state are functions, and lemmas prove
their properties. Scroll offsets, timer ticks and route changes are inputs to the events that
carry them. The record types keep only the fields the logic reads. A few records from
`src/data/index.ts` are included as constants, and lemmas about them check the general results
on the site's own data.

## Model

| member | source | states |
|---|---|---|
| `CarouselIndex.Next` | src/components/home/ProjectsSection.tsx:24 | the next index stays in `[0, n)`: it is `i + 1` below the last slide and wraps to 0 from `n - 1` |
| `CarouselIndex.Prev` | src/components/home/ProjectsSection.tsx:28 | the previous index stays in `[0, n)` because `n` is added before `%`: it is `i - 1` above 0 and wraps from 0 to `n - 1` |
| `CarouselIndex.PrevAfterNext` | src/components/home/ProjectsSection.tsx:23-29 | "previous" undoes "next" |
| `CarouselIndex.NextAfterPrev` | src/components/home/ProjectsSection.tsx:23-29 | "next" undoes "previous" |
| `CarouselIndex.NextTimes` | src/components/home/ProjectsSection.tsx:24 | any number of "next" presses keeps the index in range |
| `CarouselIndex.PrevTimes` | src/components/home/ProjectsSection.tsx:28 | any number of "previous" presses keeps the index in range |
| `CarouselIndex.NextTimesClimbs` | src/components/home/ProjectsSection.tsx:24 | below the last slide, `k` presses advance exactly `k` slides |
| `CarouselIndex.NextTimesSplit` | src/components/home/ProjectsSection.tsx:24 | `a + b` presses equal `a` presses followed by `b` presses |
| `CarouselIndex.FullCycleNext` | src/components/home/ProjectsSection.tsx:24 | `n` presses of "next" return to the starting slide |
| `CarouselIndex.PrevTimesUndoesNextTimes` | src/components/home/ProjectsSection.tsx:23-29 | `k` presses of "previous" undo `k` presses of "next" |
| `CarouselIndex.DotStates` | src/components/home/ProjectsSection.tsx:150-159 | one dot per slide |
| `CarouselIndex.ExactlyOneDotActive` | src/components/home/ProjectsSection.tsx:155-159 | with a valid index, exactly one dot is highlighted, the current one |
| `CarouselIndex.DotAt` | src/components/home/ProjectsSection.tsx:155-159 | dot `index` is highlighted if and only if `index === current` |
| `ProjectsSection.ProjectCarousel.constructor` | src/components/home/ProjectsSection.tsx:17 | the carousel starts on project 0 |
| `ProjectsSection.ProjectCarousel.NextProject` | src/components/home/ProjectsSection.tsx:23-25 | the index becomes `Next` of the old index and stays valid |
| `ProjectsSection.ProjectCarousel.PrevProject` | src/components/home/ProjectsSection.tsx:27-29 | the index becomes `Prev` of the old index and stays valid |
| `ProjectsSection.ProjectCarousel.SelectDot` | src/components/home/ProjectsSection.tsx:150-154 | a dot click sets the index to exactly that dot |
| `ProjectsSection.ProjectCarousel.Displayed` | src/components/home/ProjectsSection.tsx:31 | `featuredProjects[currentProject]` is always a read inside the list |
| `ProjectsSection.ProjectCarousel.Dots` | src/components/home/ProjectsSection.tsx:150-159 | the rendered dot row has one highlighted dot, the current index |
| `TestimonialsSection.StatusLabel` | src/components/home/TestimonialsSection.tsx:152 | the label reads "Auto-playing testimonials" if and only if autoplay is on, and "Paused" if and only if it is off |
| `TestimonialsSection.StarKeys` | src/components/home/TestimonialsSection.tsx:79-81 | `rating` stars are rendered, keyed 0 to `rating - 1` |
| `TestimonialsSection.TestimonialCarousel.constructor` | src/components/home/TestimonialsSection.tsx:12-13 | the carousel starts on testimonial 0 with autoplay on |
| `TestimonialsSection.TestimonialCarousel.Tick` | src/components/home/TestimonialsSection.tsx:20-28 | a tick advances by the modular rule only while autoplay is on; a paused tick changes nothing |
| `TestimonialsSection.TestimonialCarousel.NextTestimonial` | src/components/home/TestimonialsSection.tsx:30-33 | stops autoplay and advances by `Next` |
| `TestimonialsSection.TestimonialCarousel.PrevTestimonial` | src/components/home/TestimonialsSection.tsx:35-38 | stops autoplay and steps back by `Prev` |
| `TestimonialsSection.TestimonialCarousel.SelectDot` | src/components/home/TestimonialsSection.tsx:124-127 | jumps to the clicked dot and stops autoplay |
| `TestimonialsSection.TestimonialCarousel.MouseEnter` | src/components/home/TestimonialsSection.tsx:113-142 | entering any navigation control stops autoplay and keeps the index |
| `TestimonialsSection.TestimonialCarousel.MouseLeave` | src/components/home/TestimonialsSection.tsx:114-143 | leaving any navigation control turns autoplay on, whatever stopped it, and keeps the index |
| `TestimonialsSection.TestimonialCarousel.Displayed` | src/components/home/TestimonialsSection.tsx:40 | the displayed testimonial is always a read inside the list |
| `TestimonialsSection.TestimonialCarousel.Dots` | src/components/home/TestimonialsSection.tsx:121-136 | exactly one dot is highlighted, the current index |
| `TestimonialsSection.TestimonialCarousel.StarsShown` | src/components/home/TestimonialsSection.tsx:79-81 | the number of stars equals the displayed testimonial's rating |
| `TestimonialsSection.HoverClickLeave` | src/components/home/TestimonialsSection.tsx:139-146 | entering, clicking and leaving "next" advances once and leaves autoplay on |
| `Text.LowerChar` | src/pages/Blog.tsx:24-25 | ASCII lower-casing: the result is never upper case, a character changes only if it is an upper-case letter, and the shift is `'a' - 'A'` |
| `Text.Lower` | src/pages/Blog.tsx:24-25 | lower-casing keeps the length, maps each character, and leaves no upper-case letter |
| `Text.Includes` | src/pages/Blog.tsx:24-25 | `includes` is true for the empty term, and never for a term longer than the string |
| `Text.IncludesIffOccurs` | src/pages/Blog.tsx:24-25 | `includes` holds if and only if the term occurs at some position |
| `Text.IncludesWhenOccursAt` | src/pages/Blog.tsx:24-25 | an occurrence of the term at any position makes `includes` true |
| `Text.OccurrenceWhenIncludes` | src/pages/Blog.tsx:24-25 | when `includes` is true, the term occurs at a position it names |
| `Seqs.Filter` | src/pages/Blog.tsx:23-28 | every element `filter` returns is in the input and passes, and every passing element of the input is returned |
| `Seqs.FilterMultiset` | src/pages/Blog.tsx:23-28 | `filter` keeps every copy of a passing element and no copy of a failing one, so equal records are never merged |
| `Seqs.FilterIsSubsequence` | src/pages/Blog.tsx:23-28 | `filter` returns an order-preserving subsequence |
| `Seqs.FilterKeepsAll` | src/pages/Blog.tsx:23-28 | when every element passes, `filter` returns its input unchanged |
| `Seqs.FilterKeepsNone` | src/pages/Blog.tsx:31 | when no element passes, `filter` returns the empty list |
| `Seqs.FilterFilter` | src/pages/Blog.tsx:23-31 | two successive filters equal one filter by the conjunction |
| `Seqs.Dedup` | src/pages/Blog.tsx:21 | `new Set(...)` has no repetitions and the same elements as its input |
| `Seqs.DedupFirstSeenOrder` | src/pages/Blog.tsx:21 | the `Set` lists elements in order of first occurrence |
| `Seqs.DedupOfDistinct` | src/pages/Blog.tsx:21 | a list without repetitions is its own `Set` order |
| `Seqs.Find` | src/pages/Blog.tsx:30 | `find` returns none if and only if no element passes; otherwise it returns the first element that passes |
| `Blog.CategoryOf` | src/pages/Blog.tsx:21 | `map(post => post.category)` gives one category per post, in post order |
| `Blog.Categories` | src/pages/Blog.tsx:21 | the buttons are "all" followed by every post category, each once |
| `Blog.CategoriesInFirstSeenOrder` | src/pages/Blog.tsx:21 | the category buttons after "all" follow first-appearance order |
| `Blog.AllButtonRepeatedByAllCategory` | src/pages/Blog.tsx:21 | a post category literally named "all" produces a second "all" button, because the `Set` does not include the leading literal |
| `Blog.MatchesSearch` | src/pages/Blog.tsx:24-25 | a post matches the search if and only if the lower-cased term occurs at some position of the lower-cased title or of the lower-cased excerpt; the empty term matches every post |
| `Blog.MatchesCategory` | src/pages/Blog.tsx:26 | "all" lets every post through; any other category lets through exactly the posts filed under it |
| `Blog.FilteredPosts` | src/pages/Blog.tsx:23-28 | every listed post is one of the posts and passes both tests, and every post that passes both is listed |
| `Blog.FeaturedPost` | src/pages/Blog.tsx:30 | there is no featured post if and only if no post is featured; otherwise it is one of the posts and is featured |
| `Blog.RegularPosts` | src/pages/Blog.tsx:31 | the grid holds exactly the filtered posts that are not featured |
| `Blog.ShowsNoMatch` | src/pages/Blog.tsx:239-241 | "No articles match your search criteria." shows if and only if no post passes both tests |
| `Blog.FilteredPostsSpec` | src/pages/Blog.tsx:23-28 | `filteredPosts` is an order-preserving subsequence, and a post is kept if and only if its lower-cased title or excerpt includes the lower-cased term and the category is "all" or its own |
| `Blog.NoCriteriaKeepsEveryPost` | src/pages/Blog.tsx:16-28 | with search `""` and category "all", every post is listed |
| `Blog.FeaturedPostSpec` | src/pages/Blog.tsx:30 | `featuredPost` is the first featured post, or none when no post is featured; search and category play no part |
| `Blog.RegularPostsSpec` | src/pages/Blog.tsx:31 | the grid is `filteredPosts` minus featured posts, in the same order |
| `Blog.RegularPostsDirect` | src/pages/Blog.tsx:23-31 | the grid equals one filter of all posts by search, category and not featured |
| `Blog.OnlyFeaturedMatchesHidesMessage` | src/pages/Blog.tsx:171-252 | when only featured posts match, the grid is empty and the "no articles" message still does not show |
| `Blog.LaterFeaturedPostNeverShown` | src/pages/Blog.tsx:30-31 | a featured post other than the first is never rendered: the featured section shows a different post, and the grid leaves it out for any search or category |
| `Blog.CategoriesOfDistinct` | src/pages/Blog.tsx:21 | when no category repeats, the buttons are "all" followed by every post's category in post order |
| `Blog.BlogPostsCategoryList` | src/data/index.ts:158-201 | the site's posts have the categories Web Development, DevOps and Artificial Intelligence, in that order |
| `Blog.BlogPostsCategories` | src/data/index.ts:158-201 | on the site's posts, the buttons are all, Web Development, DevOps, Artificial Intelligence |
| `Blog.BlogPostsThirdPostHidden` | src/data/index.ts:187-200 | on the site's posts, the featured section shows post 1 and post 3 never appears in the grid |
| `Blog.BlogPage.constructor` | src/pages/Blog.tsx:16-17 | the page starts with search `""` and category "all", and then every post is listed |
| `Blog.BlogPage.SetSearchTerm` | src/pages/Blog.tsx:150 | typing sets the term and keeps the category |
| `Blog.BlogPage.SelectCategory` | src/pages/Blog.tsx:156-161 | a category button sets the category and keeps the term |
| `Blog.BlogPage.ClearFilters` | src/pages/Blog.tsx:244-247 | "Clear Filters" restores `""` and "all", and with them the full list |
| `Careers.MatchesFilter` | src/pages/Careers.tsx:25 | "remote" matches exactly the remote jobs; any other filter matches a job if and only if it has the department's length and equals the lower-cased department letter for letter |
| `Careers.FilteredJobs` | src/pages/Careers.tsx:22-26 | "all" returns the jobs unchanged; any other filter keeps exactly the jobs that are remote ("remote") or whose lower-cased department equals the filter |
| `Careers.FilteredJobsInOrder` | src/pages/Careers.tsx:22-26 | every filter result is an order-preserving subsequence of the jobs |
| `Careers.RemoteFilter` | src/pages/Careers.tsx:25 | "remote" keeps exactly the remote jobs; changing departments gives, position by position, the same jobs up to their departments |
| `Careers.UpperCaseFilterMatchesNothing` | src/pages/Careers.tsx:25 | a department filter with an upper-case letter matches no job, because the department is lower-cased before comparing |
| `Careers.EngineeringJobs` | src/data/index.ts:204-228 | on the site's jobs, "engineering" shows exactly the Full Stack position |
| `Careers.InfrastructureJobs` | src/data/index.ts:229-252 | on the site's jobs, "infrastructure" shows exactly the DevOps position |
| `Careers.RemoteJobs` | src/data/index.ts:204-253 | on the site's jobs, "remote" shows both positions |
| `Careers.CareersPage.constructor` | src/pages/Careers.tsx:18 | the page starts on "all" and lists every job |
| `Careers.CareersPage.ShowsNoPositions` | src/pages/Careers.tsx:232-234 | under "all" the empty message shows if and only if there are no jobs; under any other filter, if and only if no job matches it |
| `Careers.CareersPage.SelectFilter` | src/pages/Careers.tsx:115-119 | a button sets the filter to its own value, one of all, engineering, infrastructure, remote |
| `Careers.CareersPage.ViewAllPositions` | src/pages/Careers.tsx:232-241 | the reset sets the filter to "all", lists every job, and leaves the empty message on only when there are no jobs |
| `FloatingNavbar.ShowsBar` | src/components/ui/floating-navbar.tsx:26-30 | below 100 the bar is always shown; at or beyond 100 it is shown if and only if the page moved up, so a non-decreasing scroll hides it |
| `FloatingNavbar.LinkLookFor` | src/components/ui/floating-navbar.tsx:59-76 | a link is highlighted if and only if the path equals its href, and the indicator appears exactly with the highlight |
| `FloatingNavbar.FloatingBar.constructor` | src/components/ui/floating-navbar.tsx:18-19 | the bar starts visible with last offset 0 |
| `FloatingNavbar.FloatingBar.OnScroll` | src/components/ui/floating-navbar.tsx:23-33 | after a scroll event, visibility is `ShowsBar(last, current)` and the last offset becomes `current` on either branch |
| `FloatingNavbar.ScrollTwiceTo` | src/components/ui/floating-navbar.tsx:26-32 | two events at one offset of 100 or more leave the bar hidden |
| `Navbar.IsScrolled` | src/components/layout/Navbar.tsx:27-28 | scrolled means an offset above 50; an offset of 50 or less, exactly 50 included, is not scrolled |
| `Navbar.ActiveLinks` | src/components/layout/Navbar.tsx:60-72 | the highlighted links are links of the bar whose `href` is the current path, and every such link is highlighted |
| `Navbar.AtMostOneActive` | src/components/layout/Navbar.tsx:60-72 | with distinct hrefs, at most one link is highlighted |
| `Navbar.NavItemsHighlightOne` | src/components/layout/Navbar.tsx:11-19 | the site's links have distinct hrefs, and each route highlights exactly its own link |
| `Navbar.MainNavbar.constructor` | src/components/layout/Navbar.tsx:22-23 | the navbar starts with the menu closed and not scrolled |
| `Navbar.MainNavbar.OnScroll` | src/components/layout/Navbar.tsx:26-32 | a scroll event sets `scrolled` from the threshold and never touches the menu |
| `Navbar.MainNavbar.ToggleMenu` | src/components/layout/Navbar.tsx:83 | the button flips the menu and never touches `scrolled` |
| `Navbar.MainNavbar.OnRouteChange` | src/components/layout/Navbar.tsx:34-37 | a route change closes the menu and keeps `scrolled` |
| `Navbar.ToggleTwice` | src/components/layout/Navbar.tsx:83 | two presses restore the menu state |
| `Services.Truncate` | src/pages/Services.tsx:85-110 | the preview is the first `min(3, len)` entries in order; a `+N` count appears if and only if `len > 3`; then the shown entries plus `N` equal the total, and without it every entry is shown |
| `Services.View` | src/pages/Services.tsx:85-157 | the dialog draws the service's full lists, each card preview is a prefix of them, and a `+N` label appears if and only if the list has more than three entries |
| `Services.ViewAccountsForEverything` | src/pages/Services.tsx:85-157 | each preview list plus the entries it hides is the dialog's full list, and the hidden entries number exactly the `+N` count (0 without a label) |
| `Services.WebDevelopmentCard` | src/data/index.ts:110-118 | the first service's card reads "+1 more features" and "+3" |

## Left out

- Animation (framer-motion values and timing), styling, icons and layout: these are presentation with no logic.
- Timers and listeners: the 5000 ms interval, its cleanup and re-creation when autoplay changes, and the scroll-listener registration. A timer period is a `Tick` event and a scroll is one `OnScroll` call.
- The intersection observer (`useInView`) and the router: the pathname and route changes are inputs.
- FloatingNavbar.FloatingBar.OnScroll: each scroll event reads the most recent `lastScrollY`. In the source the listener is re-registered after each render (the effect depends on `lastScrollY`), so two scroll events that arrive before a re-render both compare against the same older offset. That interleaving is not captured.
- Scroll offsets are modelled as integers. The browser's `scrollY` can be fractional.
- Text.Lower: lower-cases ASCII letters only. JavaScript's `toLowerCase` maps all of Unicode, so non-ASCII text is not modelled.
- Text.Includes: compares Dafny characters (Unicode scalar values), not JavaScript's UTF-16 code units.
- Date formatting (`toLocaleDateString`) and the blog tag preview (`tags.slice(0, 3)`).
- The record fields that are only displayed: images, authors, dates, salaries, requirements, and so on.
- The services dialog's `selectedService` state: it is declared and never read.
- The carousels require at least one slide. With zero slides the source computes `% 0`, which is `NaN` in JavaScript.
- Dot and filter button clicks are limited to the values the page renders. Such a click can only come from a rendered button.
