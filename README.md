# Portfolio site: content layer, queries and UI state, in Dafny

This project models the logic of a statically generated portfolio site
(projects, blog posts, certifications) and proves properties of it. It covers:

- **Content documents.** There are three document types (`Project`, `BlogPost`, `Certification`).
  - Each declares required, optional, defaulted and enumerated front-matter fields.
  - Each also has computed fields: slug, reading time, excerpt, and the two expiry fields.
  - A content file is parsed into a typed record, or rejected with the first schema error.
- **Query layer.** It has the field validators, the featured/published/valid filters, and the
  case-insensitive project and post searches.
- **Pages and components.**
  - The featured-projects section: filter, stable sort, and the category and tech lists.
  - Its filter panel, the tech-badge classifier, and the case-study page with its conditional sections.
  - The case study's image gallery and lightbox, and the video URL rewriting (the YouTube and Vimeo patterns, matched position by position).
  - The certification grid and timeline, and the blog index.
  - The navigation bar's theme, menu and scroll-spy, and the hero title's two-line split.
- **Environment.** Reading, validating and deriving configuration from the environment.

The JavaScript built-ins this code relies on are defined once, in helper modules:
- `JsString`:
  - `toLowerCase` on ASCII letters, `includes`, `indexOf`, `replace` of the first occurrence;
  - `split(' ')`, `split(/\s+/)` and `join`;
  - `parseInt(_, 10)` and decimal rendering.
- `JsMath`: `Math.ceil` of an integer quotient.
- `JsArray`: `filter`, `some`, `every`, `flatMap`, and de-duplication through a `Set`.
- `JsSort`: the stable `Array.prototype.sort`.
  - It is specified as an insertion sort on sequences (`SortedBy`), proved sorted, a permutation and stable.
  - It is implemented in place on an array (`SortInPlace`) and proved equal to that specification.

Modelling choices:
- Dates are milliseconds since the epoch, and "now" is a parameter.
- `localeCompare` is a comparator parameter, assumed consistent.
- `new URL(...)` succeeding is an `isValidUrl` predicate parameter.
- The page's elements are a map from element id to `offsetTop`.
- Local storage is a field.
- Component state updated by event handlers becomes a `class` whose methods are the handlers.
  These are `ProjectFilter.FilterPanel`, `FeaturedProjects.Section`, `ImageGallery.Gallery`,
  `Navigation.NavigationState`, `CertificationGrid.GridState` and `CertificationTimeline.TimelineState`.

Where the documented behaviour and the code disagree, the model follows the code:

- **Slug.** It is computed with a string `replace`, which removes only the *first* occurrence of the
  directory segment, so it is not idempotent: `projects/projects/a` gives `projects/a`, and that gives `a`
  (`ContentSchema.SlugNotIdempotent`).
- **Excerpt.** It is the first 30 pieces of `split(/\s+/)` joined with single spaces. So even a short
  body comes back with its whitespace runs collapsed, and a body starting with whitespace gets an
  empty first piece (`ContentSchema.Excerpt`).
- **Reading time.** It counts those same pieces, so an empty body reads in one minute.
- **Certification without an expiry date.** It has `daysUntilExpiry = -1`. The grid and the timeline
  therefore label it "Renew Soon" (`CertificationGrid.StatusByExpiry`).
- **Starting sort orders.** The featured-projects section starts sorted by date, descending. Its filter
  panel starts by showing "title, ascending" and reports that only after the first change.
- **Tech list order.** `Array.prototype.sort()` without a comparator orders the tech list by code,
  not by locale. The model compares characters (`JsSort.DefaultCompare`). The program compares UTF-16
  code units, which give the same order for characters below U+10000.

## Model

| member | source | states |
|---|---|---|
| ContentSchema.LevelNames | contentlayer.config.ts:42-45 | each `complexity` option reads back as itself, and only the three option names are accepted |
| ContentSchema.Slug | contentlayer.config.ts:94-97 | the slug is the path with its first occurrence of the directory segment removed, wherever it occurs: the part before it followed by the part after it; the path itself when there is none |
| ContentSchema.SlugOfFileInDir | contentlayer.config.ts:94-97 | a file directly in the type's directory has the rest of its path as slug |
| ContentSchema.SlugNotIdempotent | contentlayer.config.ts:96 | re-applying the slug rule to a slug can change it (`projects/projects/a` → `projects/a` → `a`) |
| ContentSchema.ReadingTime | contentlayer.config.ts:98-105 | reading time is at least one minute and is the least `r` with pieces ≤ 200·r |
| ContentSchema.PieceCount | contentlayer.config.ts:102 | the word count is one more than the number of whitespace runs in the body |
| ContentSchema.ReadingTimeOfEmptyBody | contentlayer.config.ts:156-160 | an empty post still reads in one minute |
| ContentSchema.Excerpt | contentlayer.config.ts:162-168 | with at most 30 pieces the excerpt is the body with whitespace collapsed; with more it ends in `...` after a prefix of the collapsed body that ends at a word boundary |
| ContentSchema.ExcerptPieces | contentlayer.config.ts:164-166 | with more than 30 pieces the excerpt before `...` splits back into exactly the first 30 pieces |
| ContentSchema.DaysUntilExpiry | contentlayer.config.ts:223-231 | -1 without an expiry date; otherwise the whole number of days, rounded up, from now to expiry |
| ContentSchema.ExpiryFieldsAgree | contentlayer.config.ts:216-231 | `isExpired` and `daysUntilExpiry` agree: no date means not expired and -1, an expired date means ≤ 0 days, a current one ≥ 0, and ≥ 1 day iff expiry is strictly in the future |
| ContentSchema.ExpiredFiveDaysAgo | contentlayer.config.ts:216-231 | a certificate that expired on 2023-01-10, looked at on 2023-01-15, is expired with -5 days |
| ContentSchema.ParseProject | contentlayer.config.ts:3-107 | a parsed project had all five required fields, defaults `featured` to false and `videoPlatform` to youtube, accepts only the three complexity options, and carries the computed slug and a reading time ≥ 1 |
| ContentSchema.ParseProjectRequired | contentlayer.config.ts:8-28 | the required fields are all present when parsing succeeds, and a missing `id` is the error reported |
| ContentSchema.ParseListing | contentlayer.config.ts:29-48 | `featured` defaults to false, and a present complexity is one of its options |
| ContentSchema.CaseStudyRoundTrip | contentlayer.config.ts:49-91 | the case-study fields written out under their keys parse back unchanged |
| ContentSchema.ListingRoundTrip | contentlayer.config.ts:8-48 | the required and listing fields of a project written out parse back unchanged |
| ContentSchema.AssembleProject | contentlayer.config.ts:3-107 | a project is assembled from its field groups plus the slug and reading time computed from path and body |
| ContentSchema.ProjectRoundTrip | contentlayer.config.ts:3-107 | writing out a project and parsing it back yields the project, with slug and reading time recomputed |
| ContentSchema.ParseBlogPost | contentlayer.config.ts:109-170 | a parsed post had its four required fields, defaults `featured` and `draft` to false, and carries the computed slug, excerpt and reading time |
| ContentSchema.BlogPostRoundTrip | contentlayer.config.ts:109-170 | writing out a post and parsing it back yields the post, with slug, reading time and excerpt recomputed |
| ContentSchema.ParseCertification | contentlayer.config.ts:172-233 | a parsed certification had its four required fields, defaults `featured` to false, is never expired and has -1 days without an expiry date, and carries the computed slug |
| ContentSchema.CertificationRoundTrip | contentlayer.config.ts:172-233 | writing out a certification and parsing it back yields it, with slug and expiry fields recomputed at build time |
| ContentLib.Every | src/lib/contentlayer.ts:12 | `fields.every(f => obj[f])` holds iff every listed property is truthy |
| ContentLib.ValidateProjectIff | src/lib/contentlayer.ts:10-13 | a project validates iff id, title, description, image and techStack are all truthy |
| ContentLib.ValidateBlogPostIff | src/lib/contentlayer.ts:15-18 | a post validates iff title, description, image and publishedAt are all truthy |
| ContentLib.ValidateCertificationIff | src/lib/contentlayer.ts:20-23 | a certification validates iff title, issuer, issueDate and image are all truthy |
| ContentLib.ValidateBuiltProject | src/lib/contentlayer.ts:10-13 | on a built project only empty texts fail validation; an empty tech stack still passes |
| ContentLib.ValidateBuiltBlogPost | src/lib/contentlayer.ts:15-18 | on a built post only empty texts fail validation |
| ContentLib.ValidateBuiltCertification | src/lib/contentlayer.ts:20-23 | on a built certification only empty texts fail validation |
| ContentLib.FeaturedProjects | src/lib/contentlayer.ts:43-45 | the featured projects are exactly the featured ones, with multiplicity, in collection order |
| ContentLib.PublishedBlogPosts | src/lib/contentlayer.ts:47-49 | publishing removes exactly the drafts, with multiplicity, keeping order |
| ContentLib.ValidCertifications | src/lib/contentlayer.ts:51-53 | a certification is kept iff its title, issuer and image are non-empty, in collection order |
| ContentLib.SearchProjectsSpec | src/lib/contentlayer.ts:56-66 | a project is found iff the lower-cased query occurs in its lower-cased title, description or some tech |
| ContentLib.SearchProjectsOrder | src/lib/contentlayer.ts:58-65 | results keep collection order (search distributes over concatenation) |
| ContentLib.SearchProjectsEmptyQuery | src/lib/contentlayer.ts:56-66 | the empty query finds every project, in order |
| ContentLib.SearchProjectsCaseInsensitive | src/lib/contentlayer.ts:57 | lower-casing the query first finds the same projects |
| ContentLib.SearchBlogPostsSpec | src/lib/contentlayer.ts:68-76 | a post is found iff the query occurs in its title, description or one of its tags |
| ContentLib.SearchUntaggedPost | src/lib/contentlayer.ts:74 | a post without tags is found only through title or description |
| ContentLib.SearchBlogPostsOrder | src/lib/contentlayer.ts:70-75 | results keep collection order |
| ContentLib.SearchBlogPostsEmptyQuery | src/lib/contentlayer.ts:68-76 | the empty query finds every post, in order |
| FeaturedProjects.MatchesIff | src/components/FeaturedProjects/FeaturedProjects.tsx:156-171 | a project passes iff the category is `all` or its own, and the tech selection is empty or shares a tech with it |
| FeaturedProjects.Rank | src/components/FeaturedProjects/FeaturedProjects.tsx:186-190 | the complexity rank lies in 1..3 |
| FeaturedProjects.RankOrder | src/components/FeaturedProjects/FeaturedProjects.tsx:187-189 | beginner ranks below every other, advanced above every other, and a missing complexity ranks as intermediate |
| FeaturedProjects.DescNegates | src/components/FeaturedProjects/FeaturedProjects.tsx:194 | descending order negates the ascending comparison and keeps its ties |
| FeaturedProjects.ComparatorConsistent | src/components/FeaturedProjects/FeaturedProjects.tsx:174-195 | for a consistent `localeCompare`, the comparator is a consistent total preorder for every key and order |
| FeaturedProjects.FilteredAndSortedProjects | src/components/FeaturedProjects/FeaturedProjects.tsx:155-198 | the in-place sort of the filtered copy yields the stable sort of the matching projects |
| FeaturedProjects.ShownPermutation | src/components/FeaturedProjects/FeaturedProjects.tsx:155-198 | the shown projects are exactly the matching ones, with multiplicity |
| FeaturedProjects.ShownInOrder | src/components/FeaturedProjects/FeaturedProjects.tsx:174-195 | the shown projects run in the selected key's order, ascending or descending |
| FeaturedProjects.ShownStable | src/components/FeaturedProjects/FeaturedProjects.tsx:174-195 | projects that compare equal keep their list order |
| FeaturedProjects.NoFilterShowsAll | src/components/FeaturedProjects/FeaturedProjects.tsx:156-171 | with category `all` and no tech selected every project is shown |
| FeaturedProjects.PresentCategories | src/components/FeaturedProjects/FeaturedProjects.tsx:143-145 | the truthy categories are exactly the non-empty categories some project has |
| FeaturedProjects.AvailableCategoriesSpec | src/components/FeaturedProjects/FeaturedProjects.tsx:142-147 | the category buttons are duplicate-free and are exactly the non-empty project categories |
| FeaturedProjects.TechStacks | src/components/FeaturedProjects/FeaturedProjects.tsx:150 | one tech stack per project, in order |
| FeaturedProjects.AvailableTechStackSpec | src/components/FeaturedProjects/FeaturedProjects.tsx:149-152 | the tech list holds every tech of some project exactly once, in strictly increasing character order (the same as code-unit order below U+10000) |
| FeaturedProjects.Section.constructor | src/components/FeaturedProjects/FeaturedProjects.tsx:134-139 | the section starts with category `all`, no techs, date, descending |
| FeaturedProjects.Section.HandleFilterChange | src/components/FeaturedProjects/FeaturedProjects.tsx:200-202 | the reported filters replace the section's filters |
| FeaturedProjects.Section.Visible | src/components/FeaturedProjects/FeaturedProjects.tsx:221-225 | the grid shows the filtered, sorted projects for the current filters |
| ProjectFilter.MergeSpec | src/components/FeaturedProjects/ProjectFilter.tsx:35-39 | each field of the update replaces the old one when given and keeps it otherwise |
| ProjectFilter.Toggled | src/components/FeaturedProjects/ProjectFilter.tsx:41-47 | after a click the tech is selected iff it was not, and every other tech's count is unchanged |
| ProjectFilter.ToggleTwice | src/components/FeaturedProjects/ProjectFilter.tsx:41-47 | clicking an unselected tech twice restores the selection |
| ProjectFilter.ToggleAppends | src/components/FeaturedProjects/ProjectFilter.tsx:44 | an unselected tech is appended at the end |
| ProjectFilter.ActiveFiltersCountSpec | src/components/FeaturedProjects/ProjectFilter.tsx:60-61 | the badge count is zero iff category is `all` and no tech is selected; sorting does not change it; clearing zeroes it |
| ProjectFilter.Flip | src/components/FeaturedProjects/ProjectFilter.tsx:181-185 | the order button always changes the sort order |
| ProjectFilter.FilterPanel.constructor | src/components/FeaturedProjects/ProjectFilter.tsx:26-33 | the panel starts at `all`, no techs, title, ascending, collapsed, nothing reported |
| ProjectFilter.FilterPanel.UpdateFilters | src/components/FeaturedProjects/ProjectFilter.tsx:35-39 | the merged filters become current and are reported to the section |
| ProjectFilter.FilterPanel.SelectCategory | src/components/FeaturedProjects/ProjectFilter.tsx:129-137 | a category button sets only the category and reports the result |
| ProjectFilter.FilterPanel.ToggleTech | src/components/FeaturedProjects/ProjectFilter.tsx:41-47 | a tech button toggles that tech and reports the result |
| ProjectFilter.FilterPanel.SelectSortBy | src/components/FeaturedProjects/ProjectFilter.tsx:165-171 | the select sets only the sort key and reports the result |
| ProjectFilter.FilterPanel.FlipSortOrder | src/components/FeaturedProjects/ProjectFilter.tsx:180-186 | the order button flips only the order and reports the result |
| ProjectFilter.FilterPanel.ClearAllFilters | src/components/FeaturedProjects/ProjectFilter.tsx:49-58 | clearing restores the initial filters and reports them |
| ProjectFilter.FilterPanel.ToggleExpanded | src/components/FeaturedProjects/ProjectFilter.tsx:68 | the header button flips `isExpanded` and reports nothing |
| ProjectFilter.FreshPanelExamples | src/components/FeaturedProjects/__tests__/ProjectFilter.test.tsx:68-110 | from a fresh panel, choosing Frontend reports category Frontend with one active filter, and clicking React selects `["React"]` |
| ProjectCard.ListsDisjoint | src/components/FeaturedProjects/ProjectCard.tsx:26-132 | the five keyword lists share no entry, so the first-match order never matters |
| ProjectCard.GetTechCategorySpec | src/components/FeaturedProjects/ProjectCard.tsx:26-132 | a tech gets a category iff its lower-cased name is in that category's list, and `default` iff it is in none |
| ProjectCard.GetTechCategoryIgnoresCase | src/components/FeaturedProjects/ProjectCard.tsx:27 | classification ignores letter case |
| ProjectCard.GetTechCategoryExamples | src/components/FeaturedProjects/__tests__/ProjectCard.test.tsx:55-62 | React and TypeScript are frontend and Jest is a tool |
| ProjectCard.ReactNativeIsDefault | src/components/FeaturedProjects/FeaturedProjects.tsx:108 | the `React Native` tech of the banking project falls through to `default` |
| ProjectCard.BadgeTitle | src/components/FeaturedProjects/ProjectCard.tsx:235 | a badge's tooltip is the tech, ` - `, its category, ` technology` |
| ProjectCaseStudy.SameLists | src/components/ProjectCaseStudy/ProjectCaseStudy.tsx:75-176 | the page's keyword lists are the project card's lists |
| ProjectCaseStudy.ClassifiersAgree | src/components/ProjectCaseStudy/ProjectCaseStudy.tsx:75-176 | the page classifies every tech as the project card does |
| ProjectCaseStudy.BadgeCategories | src/components/ProjectCaseStudy/ProjectCaseStudy.tsx:246-254 | one badge per tech, in order, each with the card's category |
| ProjectCaseStudy.ChallengeItems | src/components/ProjectCaseStudy/ProjectCaseStudy.tsx:295-311 | one block per challenge, numbered from 1, showing the same-index solution iff it is present and non-empty |
| ProjectCaseStudy.ExtraSolutionsIgnored | src/components/ProjectCaseStudy/ProjectCaseStudy.tsx:295-311 | solutions past the last challenge never show, and an absent solutions list shows as an empty one |
| ProjectCaseStudy.LengthOf | src/components/ProjectCaseStudy/ProjectCaseStudy.tsx:290 | `list?.length` is undefined iff the list is absent, else its length |
| ProjectCaseStudy.Or | src/components/ProjectCaseStudy/ProjectCaseStudy.tsx:290 | JavaScript's or-operator on lengths is truthy iff either operand is, and is `a` when `a` is truthy |
| ProjectCaseStudy.Guard | src/components/ProjectCaseStudy/ProjectCaseStudy.tsx:318 | `length && content` renders the content iff the length is truthy, and the text `0` iff the length is 0 |
| ProjectCaseStudy.When | src/components/ProjectCaseStudy/ProjectCaseStudy.tsx:260 | a boolean guard renders the content iff the condition holds, and never `0` |
| ProjectCaseStudy.ChallengesSection | src/components/ProjectCaseStudy/ProjectCaseStudy.tsx:290-315 | the challenges section shows, with the challenge blocks, iff either list has an entry, and never shows `0` |
| ProjectCaseStudy.ChallengesSectionZero | src/components/ProjectCaseStudy/ProjectCaseStudy.tsx:290 | as written, the section prints `0` iff there is no challenge and the solutions list is present but empty; otherwise it agrees with the corrected section |
| ProjectCaseStudy.EmptySolutionsShowZero | src/components/ProjectCaseStudy/ProjectCaseStudy.tsx:290 | with no challenges and `solutions: []`, the page as written shows `0` where the corrected page shows nothing |
| ProjectCaseStudy.ListSection | src/components/ProjectCaseStudy/ProjectCaseStudy.tsx:318-375 | a snippets, gallery or outcomes section shows the list iff it has an entry, and never shows `0` |
| ProjectCaseStudy.ListSectionZero | src/components/ProjectCaseStudy/ProjectCaseStudy.tsx:318-375 | as written, a list section prints `0` exactly for a present but empty list, and otherwise agrees with the corrected section |
| ProjectCaseStudy.SnippetDescription | src/components/ProjectCaseStudy/ProjectCaseStudy.tsx:329 | a snippet's description is passed on when present, and `''` when absent |
| ProjectCaseStudy.VideoSection | src/components/ProjectCaseStudy/ProjectCaseStudy.tsx:351-362 | the video shows iff the URL is non-empty, titled `<title> demo video`, on the given platform or youtube |
| ProjectCaseStudy.TextSection | src/components/ProjectCaseStudy/ProjectCaseStudy.tsx:260-267 | a text guarded by itself shows, with that text, iff it is present and non-empty, and never prints `0` |
| ProjectCaseStudy.LinksSection | src/components/ProjectCaseStudy/ProjectCaseStudy.tsx:380-420 | the links section shows iff either URL is non-empty; inside it each link shows, with its URL, iff its own URL is non-empty |
| ProjectCaseStudy.RenderPage | src/components/ProjectCaseStudy/ProjectCaseStudy.tsx:207-420 | with the list guards corrected: the role, timeline and complexity items, the problem statement, approach and architecture sections, the challenges, snippet, gallery, video and outcome sections and the links each show iff their data is non-empty, and each is the one its section function (`TextSection`, `ListSection`, `ChallengesSection`, `VideoSection`, `LinksSection`) renders from that data; the badges carry the card's categories; no section prints `0` |
| ProjectCaseStudy.AsWrittenPageDiffers | src/components/ProjectCaseStudy/ProjectCaseStudy.tsx:290-375 | the page as written differs from the corrected page iff a list section gets a present but empty list (for challenges: none and `solutions: []`), and there only by a printed `0` |
| ImageGallery.Next | src/components/ProjectCaseStudy/ImageGallery.tsx:39-45 | the next index of an image is an image, wrapping from the last to the first |
| ImageGallery.Previous | src/components/ProjectCaseStudy/ImageGallery.tsx:31-37 | the previous index of an image is an image, wrapping from the first to the last |
| ImageGallery.NextPreviousInverse | src/components/ProjectCaseStudy/ImageGallery.tsx:31-45 | next and previous undo each other |
| ImageGallery.Forward | src/components/ProjectCaseStudy/ImageGallery.tsx:39-45 | any number of next-steps stays within the images |
| ImageGallery.ForwardWraps | src/components/ProjectCaseStudy/ImageGallery.tsx:39-45 | `k ≤ n` steps forward from `i` reach `i + k` wrapped past the end, and `n` steps return to `i` |
| ImageGallery.CounterReadsBack | src/components/ProjectCaseStudy/ImageGallery.tsx:184 | the lightbox counter starts with the one-based position of the image |
| ImageGallery.Gallery.constructor | src/components/ProjectCaseStudy/ImageGallery.tsx:14-17 | nothing selected, lightbox closed |
| ImageGallery.Gallery.OpenLightbox | src/components/ProjectCaseStudy/ImageGallery.tsx:19-23 | selects the image, opens the lightbox, locks page scroll; valid for an index in range |
| ImageGallery.Gallery.CloseLightbox | src/components/ProjectCaseStudy/ImageGallery.tsx:25-29 | closes, clears the selection, unlocks scroll |
| ImageGallery.Gallery.GoToPrevious | src/components/ProjectCaseStudy/ImageGallery.tsx:31-37 | moves the selection back with wrap-around, and does nothing without a selection; keeps the invariant |
| ImageGallery.Gallery.GoToNext | src/components/ProjectCaseStudy/ImageGallery.tsx:39-45 | moves the selection forward with wrap-around, and does nothing without a selection; keeps the invariant |
| ImageGallery.Gallery.HandleThumbnailKey | src/components/ProjectCaseStudy/ImageGallery.tsx:81-88 | Enter or Space on a thumbnail opens it; any other key changes nothing |
| ImageGallery.Gallery.HandleKeyDown | src/components/ProjectCaseStudy/ImageGallery.tsx:47-61 | ignored while closed; Escape closes, ArrowLeft and ArrowRight move with wrap-around, other keys change nothing; keeps the invariant |
| ImageGallery.NextThenPrevious | src/components/ProjectCaseStudy/ImageGallery.tsx:47-61 | opening image `i` then pressing ArrowRight and ArrowLeft returns to `i` with the lightbox still open |
| VideoEmbed.PathAlt | src/components/ProjectCaseStudy/VideoEmbed.tsx:25 | the `[^\/]+\/.+\/` alternative finds an id iff one fits, and picks the last such position |
| VideoEmbed.PrefixAlt | src/components/ProjectCaseStudy/VideoEmbed.tsx:25 | the `v/`, `e/` or `embed/` alternative finds an id iff one fits |
| VideoEmbed.QueryAlt | src/components/ProjectCaseStudy/VideoEmbed.tsx:25 | the `.*[?&]v=` alternative finds an id iff one fits, and picks the last such position |
| VideoEmbed.HostsExclusive | src/components/ProjectCaseStudy/VideoEmbed.tsx:25 | `youtube.com/` and `youtu.be/` never both occur at one position |
| VideoEmbed.NoAlternative | src/components/ProjectCaseStudy/VideoEmbed.tsx:25 | at a `youtube.com/` host where no alternative finds an id, no match starts there |
| VideoEmbed.MatchAt | src/components/ProjectCaseStudy/VideoEmbed.tsx:24-26 | a match of the YouTube pattern starts at a position iff one is found there, and what is found is a match |
| VideoEmbed.YouTubeId | src/components/ProjectCaseStudy/VideoEmbed.tsx:24-26 | a YouTube id found is eleven characters long |
| VideoEmbed.YouTubeIdSpec | src/components/ProjectCaseStudy/VideoEmbed.tsx:24-26 | no id iff the pattern matches nowhere; otherwise the id is the capture of a match at the leftmost position where one starts |
| VideoEmbed.VimeoId | src/components/ProjectCaseStudy/VideoEmbed.tsx:33 | no id iff `vimeo.com/<digit>` occurs nowhere; otherwise the whole digit run after its leftmost occurrence |
| VideoEmbed.UrlsWithoutId | src/components/ProjectCaseStudy/VideoEmbed.tsx:22-60 | with no id found, or a custom platform, the embed URL is the URL itself; a supplied thumbnail always wins, and a custom platform has none otherwise |
| VideoEmbed.YouTubeEmbedMatch | src/components/ProjectCaseStudy/VideoEmbed.tsx:25-28 | in a YouTube player URL the pattern matches at the host with the id right after `embed/` |
| VideoEmbed.YouTubeEmbedNoEarlierMatch | src/components/ProjectCaseStudy/VideoEmbed.tsx:25-28 | no match starts before the host of a YouTube player URL |
| VideoEmbed.YouTubeIdOfEmbed | src/components/ProjectCaseStudy/VideoEmbed.tsx:24-29 | the id found in the player URL built from an id is that id |
| VideoEmbed.FirstMatchFound | src/components/ProjectCaseStudy/VideoEmbed.tsx:24-26 | a match with no earlier match gives the id found |
| VideoEmbed.VimeoEmbedHasNoMatch | src/components/ProjectCaseStudy/VideoEmbed.tsx:33-35 | a Vimeo player URL contains no Vimeo match |
| VideoEmbed.EmbedUrlIdempotent | src/components/ProjectCaseStudy/VideoEmbed.tsx:22-40 | rewriting an embed URL again leaves it unchanged, on every platform |
| CertificationGrid.StatusClass | src/components/Certifications/CertificationGrid.tsx:36-40 | the status colour is one of `expired`, `expiring-soon`, `active` |
| CertificationGrid.LabelMatchesStatus | src/components/Certifications/CertificationGrid.tsx:84-90 | the badge's text always names the badge's colour class, and different statuses differ in both |
| CertificationGrid.ParsedExpiryComputed | contentlayer.config.ts:216-231 | every parsed certification's expiry fields are those computed from its date at build time |
| CertificationGrid.StatusByExpiry | src/components/Certifications/CertificationGrid.tsx:36-40 | expired iff the date has passed; active iff more than 90 days remain; without an expiry date always "Renew Soon" |
| CertificationGrid.ExpiryLabelSpec | src/components/Certifications/CertificationGrid.tsx:109-113 | the expiry line shows iff there is a date, and reads "Expired:" iff the status is expired |
| CertificationGrid.Issuers | src/components/Certifications/CertificationGrid.tsx:21 | one issuer per certification, in order |
| CertificationGrid.CategoriesSpec | src/components/Certifications/CertificationGrid.tsx:20-22 | one button per issuer, each once, in order of first appearance |
| CertificationGrid.NoResultsIff | src/components/Certifications/CertificationGrid.tsx:175-183 | "No certifications found" shows iff nothing matches: for `all` iff the list is empty, for an issuer iff none has it; never for an issuer's own button |
| CertificationGrid.FilteredSpec | src/components/Certifications/CertificationGrid.tsx:24-27 | `all` shows everything; another choice shows exactly that issuer's certifications with multiplicity, in order |
| CertificationGrid.CountsTotalCovers | src/components/Certifications/CertificationGrid.tsx:53-64 | counting per issuer over a duplicate-free list of all issuers counts each certification once |
| CertificationGrid.IssuerCountsSumToTotal | src/components/Certifications/CertificationGrid.tsx:51-64 | the issuer buttons' counts add up to the "All Certifications" count |
| CertificationGrid.SkillsPreviewSpec | src/components/Certifications/CertificationGrid.tsx:123-137 | no preview iff no skills; otherwise the first min(n, 4) skills as chips, and "+k more" iff n > 4 with k = n − 4 |
| CertificationGrid.MoreText | src/components/Certifications/CertificationGrid.tsx:133 | the "+k more" text reads back as `k` |
| CertificationGrid.GridState.constructor | src/components/Certifications/CertificationGrid.tsx:17 | the grid starts on `all` |
| CertificationGrid.GridState.Select | src/components/Certifications/CertificationGrid.tsx:49-61 | a button press sets the selected category |
| CertificationGrid.GridState.Visible | src/components/Certifications/CertificationGrid.tsx:24-27 | `all` shows every certification; otherwise exactly those of the selected issuer |
| CertificationTimeline.NewestFirstConsistent | src/components/Certifications/CertificationTimeline.tsx:22-24 | the issue-date comparator is a consistent total preorder |
| CertificationTimeline.SortedCertifications | src/components/Certifications/CertificationTimeline.tsx:22-24 | sorting keeps the number of certifications |
| CertificationTimeline.SortedCertificationsSpec | src/components/Certifications/CertificationTimeline.tsx:21-24 | the timeline is a permutation of the list, newest issue date first, with same-day certifications in list order |
| CertificationTimeline.TiesAreSameIssueDate | src/components/Certifications/CertificationTimeline.tsx:23 | the comparator ties exactly the certifications issued at the same instant |
| CertificationTimeline.SortedCopy | src/components/Certifications/CertificationTimeline.tsx:22-24 | the spread copy sorted in place is a fresh array holding the sorted certifications |
| CertificationTimeline.SameStatusAsGrid | src/components/Certifications/CertificationTimeline.tsx:30-34 | the timeline colours every certification as the grid does |
| CertificationTimeline.Items | src/components/Certifications/CertificationTimeline.tsx:39-47 | one item per sorted certification with its index and the grid's colour, a line iff index < 9, visible iff its id was reported |
| CertificationTimeline.MakeItem | src/components/Certifications/CertificationTimeline.tsx:40-47 | an item's colour is the grid's status class |
| CertificationTimeline.LinesDrawn | src/components/Certifications/CertificationTimeline.tsx:101 | min(n, 9) connecting lines are drawn |
| CertificationTimeline.ExpiryWordSpec | src/components/Certifications/CertificationTimeline.tsx:126-131 | the expiry text shows iff there is a date, and reads "Expired" iff the date has passed |
| CertificationTimeline.TimelineState.constructor | src/components/Certifications/CertificationTimeline.tsx:18 | no item is visible at first |
| CertificationTimeline.TimelineState.HandleItemVisible | src/components/Certifications/CertificationTimeline.tsx:26-28 | the id is added, nothing is removed, and adding it again changes nothing |
| BlogPage.NewestFirstConsistent | src/app/blog/page.tsx:14-17 | the publication-date comparator is a consistent total preorder |
| BlogPage.PublishedPostsContent | src/app/blog/page.tsx:12-17 | no draft is listed, and every other post is listed as often as it occurs |
| BlogPage.PublishedPostsOrder | src/app/blog/page.tsx:14-17 | the list runs newest first |
| BlogPage.PublishedPostsStable | src/app/blog/page.tsx:14-17 | posts published at the same instant keep collection order |
| BlogPage.SameAsPublishedBlogPosts | src/app/blog/page.tsx:12-13 | the page lists the same posts as `getPublishedBlogPosts`, reordered |
| BlogPage.EmptyStateIff | src/app/blog/page.tsx:36-44 | "No posts yet" shows iff every post is a draft |
| Navigation.Offsets | src/components/Navigation/Navigation.tsx:57-59 | the sections found are at most as many as the items, and as many iff every item's element exists |
| Navigation.PresentItems | src/components/Navigation/Navigation.tsx:57-59 | the items whose element exists pair up, in order, with the offsets found |
| Navigation.LastAtMost | src/components/Navigation/Navigation.tsx:62-69 | the backward scan finds the last offset at or above the position, and finds none iff all are below it |
| Navigation.ActiveSectionExample | src/components/Navigation/__tests__/Navigation.test.tsx:284-320 | with home, about and projects at 0, 200 and 400, scrolling to 150 highlights `about` |
| Navigation.IntendedActive | src/components/Navigation/Navigation.tsx:62-69 | a changed highlight names an item whose own element starts at or above `scrollY + 100` |
| Navigation.AllPresentAgrees | src/components/Navigation/Navigation.tsx:57-69 | with every element on the page the handler highlights the intended item |
| Navigation.MissingElementShiftsPairing | src/components/Navigation/Navigation.tsx:57-66 | without the `home` element the handler highlights `home` where `about` is intended |
| Navigation.InitialTheme | src/components/Navigation/Navigation.tsx:26-35 | a non-empty saved theme wins; otherwise dark iff the system prefers dark |
| Navigation.Toggled | src/components/Navigation/Navigation.tsx:38 | a toggle always changes the theme, to `light` or `dark` |
| Navigation.ToggleTwice | src/components/Navigation/Navigation.tsx:37-42 | toggling twice restores the theme iff it was `light` or `dark` |
| Navigation.NavigationState.constructor | src/components/Navigation/Navigation.tsx:20-23 | closed, no section, light, not scrolled |
| Navigation.NavigationState.LoadTheme | src/components/Navigation/Navigation.tsx:26-35 | the mount effect sets the initial theme and applies the `dark` class accordingly |
| Navigation.NavigationState.ToggleTheme | src/components/Navigation/Navigation.tsx:37-42 | the toggle flips, saves and applies the theme, and changes nothing else |
| Navigation.NavigationState.HandleScroll | src/components/Navigation/Navigation.tsx:46-48 | scrolled iff `scrollY > 20` |
| Navigation.NavigationState.HandleSectionScroll | src/components/Navigation/Navigation.tsx:55-70 | the backward loop highlights the item the scroll-spy rule selects, and keeps the old one when none qualifies |
| Navigation.NavigationState.HandleNavClick | src/components/Navigation/Navigation.tsx:78-97 | an in-page link closes the menu and scrolls 80 px above its section when it exists; other links change nothing |
| Navigation.NavigationState.ToggleMenu | src/components/Navigation/Navigation.tsx:182 | the menu button flips the menu |
| Navigation.NavigationState.HandleEscape | src/components/Navigation/Navigation.tsx:122-131 | Escape closes the menu; other keys leave it |
| Navigation.NavigationState.HandleMouseDown | src/components/Navigation/Navigation.tsx:100-106 | a press outside the bar closes the menu; inside leaves it |
| Navigation.NavClickExample | src/components/Navigation/__tests__/Navigation.test.tsx:243-281 | clicking the link of a section at 100 scrolls to 20 and closes the open menu |
| Navigation.ToggleExample | src/components/Navigation/__tests__/Navigation.test.tsx:186-196 | with nothing saved, a toggle makes the theme dark, saves it and applies the class |
| Hero.FirstLineCount | src/components/Hero/Hero.tsx:124 | the first line gets half of the words, rounded up |
| Hero.LinesSplitBack | src/components/Hero/Hero.tsx:121-132 | the first line splits back into the first ⌈n/2⌉ words and the second into the rest, and the first has as many words or one more |
| Hero.LinesRejoin | src/components/Hero/Hero.tsx:121-132 | with a space in the title, the two lines joined by a space give the title back |
| Hero.OneWordTitle | src/components/Hero/Hero.tsx:121-132 | a title without a space is all on the first line |
| Hero.LinesOfWords | src/components/Hero/Hero.tsx:121-132 | a title of space-free words is set as its first ⌈n/2⌉ words over the rest |
| Env.OrDefault | src/lib/env.ts:8-10 | a set, non-empty variable is used as is; otherwise the fallback |
| Env.IntOrDefault | src/lib/env.ts:44-49 | an unset or empty variable gives the fallback; otherwise `parseInt` of it |
| Env.ClientEnvSpec | src/lib/env.ts:7-19 | the site URL is never empty, is the default iff unset or equal to it, and each flag is on iff its variable is exactly `true` |
| Env.FlagIsExact | src/lib/env.ts:12-18 | a flag set to anything but exactly `true` is off |
| Env.ServerEnvSpec | src/lib/env.ts:22-56 | unset rate limits default to 100 and 900000, a number with trailing text reads as that number, and the SMTP port is absent iff unset |
| Env.RateLimitNotANumber | src/lib/env.ts:44-46 | a rate limit without digits reads as `NaN`, not the default |
| Env.Errors | src/lib/env.ts:62-91 | at most four errors are collected |
| Env.ValidateEnv | src/lib/env.ts:62-95 | validation succeeds iff no error is collected, and otherwise fails with the joined messages |
| Env.ErrorsSpec | src/lib/env.ts:62-91 | each message is present iff its condition holds, in check order, and the production checks only in production |
| Env.SiteUrlNeverMissing | src/lib/env.ts:66-68 | the "is required" error can never occur, because the site URL has a default |
| Env.OutsideProduction | src/lib/env.ts:77-90 | outside production only the URL format is checked |
| Env.StripTrailingSlash | src/lib/env.ts:108 | one trailing slash is removed iff present, and nothing else changes |
| Env.GetConfigSpec | src/lib/env.ts:100-121 | at most one environment flag is set, analytics is on iff the GA id is non-empty, and the base URL is the site URL minus at most one slash |
| JsString.Lower | src/lib/contentlayer.ts:57 | lower-casing keeps the length and maps every character |
| JsString.LowerIdempotent | src/lib/contentlayer.ts:57 | lower-casing twice is lower-casing once |
| JsString.IndexOf | contentlayer.config.ts:96 | the first occurrence of the pattern, or none iff it does not occur |
| JsString.IndexOfIsFirstOccurrence | contentlayer.config.ts:96 | an occurrence with no occurrence before it is the position `indexOf` returns |
| JsString.ReplaceFirst | contentlayer.config.ts:96 | at the first occurrence `i` of the pattern the result is the text before `i`, the replacement, then the text after the pattern; the input unchanged when there is none |
| JsString.SplitOn | src/components/Hero/Hero.tsx:123 | `split(' ')` gives one more piece than there are spaces, none containing a space |
| JsString.JoinSplitOn | src/components/Hero/Hero.tsx:123-125 | joining the pieces of a split with the separator gives the text back |
| JsString.SplitOnJoin | src/components/Hero/Hero.tsx:123-131 | splitting a join of separator-free pieces gives the pieces back |
| JsString.SplitWsIsSplitOfCollapse | contentlayer.config.ts:102 | `split(/\s+/)` is a split on single spaces of the whitespace-collapsed text |
| JsString.JoinSplitWs | contentlayer.config.ts:165-166 | joining the whitespace pieces with single spaces gives the collapsed text |
| JsString.ParseIntDecimal | src/lib/env.ts:29 | `parseInt` reads a rendered number back, whatever non-digit text follows |
| JsString.ParseIntNegative | src/lib/env.ts:29 | `parseInt` reads a minus sign and digits as the negative number |
| JsString.ParseIntNoDigits | src/lib/env.ts:45 | text without a digit parses to `NaN` |
| JsMath.CeilDiv | contentlayer.config.ts:103 | `Math.ceil(a / b)` is the least `r` with `a ≤ r·b` |
| JsMath.CeilDivUnique | contentlayer.config.ts:229 | any `r` with `(r−1)·b < a ≤ r·b` is the rounded-up quotient |
| JsMath.CeilDivMonotonic | contentlayer.config.ts:103 | more words never mean less reading time |
| JsArray.Filter | src/lib/contentlayer.ts:44 | `filter` keeps exactly the elements satisfying the predicate |
| JsArray.FilterMultiset | src/lib/contentlayer.ts:48 | `filter` keeps each satisfying element with its multiplicity and drops the rest |
| JsArray.FilterAppend | src/lib/contentlayer.ts:52 | `filter` keeps order (it distributes over concatenation) |
| JsArray.Distinct | src/components/FeaturedProjects/FeaturedProjects.tsx:146 | `Array.from(new Set(xs))` holds each element of `xs` exactly once |
| JsArray.DistinctOrder | src/components/Certifications/CertificationGrid.tsx:20-22 | the set keeps first-insertion order |
| JsArray.DistinctIdempotent | src/components/FeaturedProjects/FeaturedProjects.tsx:146 | de-duplicating twice is de-duplicating once |
| JsArray.Any | src/components/FeaturedProjects/FeaturedProjects.tsx:164-166 | `some` holds iff some element satisfies the predicate |
| JsArray.Flatten | src/components/FeaturedProjects/FeaturedProjects.tsx:150 | `flatMap` holds exactly the elements of the inner lists |
| JsSort.SortedBySorted | src/components/FeaturedProjects/FeaturedProjects.tsx:174-195 | for a consistent comparator, the sort is in order |
| JsSort.SortedByPermutation | src/components/FeaturedProjects/FeaturedProjects.tsx:174-195 | the sort is a permutation |
| JsSort.SortedByStable | src/components/FeaturedProjects/FeaturedProjects.tsx:174-195 | elements the comparator ties keep their order |
| JsSort.SortedByOfSorted | src/components/FeaturedProjects/FeaturedProjects.tsx:174-195 | an already sorted list is left as it is |
| JsSort.SortInPlace | src/components/FeaturedProjects/FeaturedProjects.tsx:174 | the in-place insertion sort of an array yields the specified stable sort of its old contents |
| JsSort.DefaultCompareConsistent | src/components/FeaturedProjects/FeaturedProjects.tsx:151 | the default `sort()` order, taken character by character, is a consistent total order |

## Left out

- Date formatting (`toLocaleDateString`) is not modelled. Dates are milliseconds, and the labels around them are modelled.
- Timers, `IntersectionObserver`, `requestAnimationFrame` and CSS animation delays are not modelled. They only decide *when* state changes, and the state changes themselves are modelled.
- The video player's `isPlaying` / `isLoaded` state and the image loading state are not modelled. They only switch between placeholder and player markup.
- `getContentWithErrorHandling` (src/lib/contentlayer.ts:26-40) is not modelled. It awaits a promise and logs, which is asynchronous I/O.
- Locale-aware `localeCompare` is an abstract comparator parameter, assumed consistent. The title sort is proved for any such comparator.
- `new URL(...)` is the `isValidUrl` parameter. WHATWG URL parsing is not modelled.
- Browser state is reduced to what the handlers read and write. The DOM is the id → `offsetTop` map, `localStorage` is a field, `matchMedia` is a boolean, and `scrollTo` is the recorded target.
- The smooth-scroll behaviour, and the overflow reset when a component unmounts, are not modelled.
- The navigation menu's body-scroll lock is only a function (`Navigation.MenuOverflow`). The class does not track it.
- The image gallery's `!images.length` early return and the empty-string fallback for an image source are not modelled. The model keeps the selection within the images, so the fallback is never reached.
- The certification's document id `_id` is an `idOf` parameter. Contentlayer assigns it.
- Front-matter values are typed by a value datatype. YAML/MDX parsing, and keys the schema does not declare, are not modelled.
- Strings are sequences of Unicode characters, not of UTF-16 code units. For a character above U+FFFF the program counts two units where the model counts one. This affects `.length`, `split`/`substring` positions, the `{11}` of the YouTube pattern, and the default `sort()` order against characters from U+E000 to U+FFFF.
- ContentSchema.ParseCertification: `isExpired` and `daysUntilExpiry` each read the clock with their own `new Date()`. The model reads one `now` for both, so `ContentSchema.ExpiryFieldsAgree` holds. In the program an expiry falling between the two reads can make the two fields disagree.
- JsString.ParseInt, ContentSchema.DaysUntilExpiry: JavaScript numbers are IEEE doubles, and the model uses unbounded integers. `parseInt` of a digit string beyond 2^53, as in the rate-limit variables, and millisecond arithmetic on such values lose precision in the program but not in the model.
- `toLowerCase` is modelled on ASCII letters only. Full Unicode case mapping is not available here.
- The `codeSnippets` and `author` JSON fields are typed records and texts. Arbitrary JSON is not modelled.
- Markup and styling of the presentation-only components are not modelled. These are the code highlighter, the Mermaid diagram, the copy-to-clipboard button and the zoomable image.
- `Hero`: the title on the home page is not proved concretely, because the literal-string computation is too large for the verifier. `Hero.LinesOfWords` covers any title made of space-free words, which includes it.

## Findings

| source | as written | input that shows it | evidently intended | confidence | as-written member | corrected member |
|---|---|---|---|---|---|---|
| src/components/ProjectCaseStudy/ProjectCaseStudy.tsx:290 | the guard `challenges?.length or solutions?.length`, used with `&&`, renders the number `0` as text when the guard's value is `0` | a case study with no `challenges` and `solutions: []` | the section is hidden, with nothing printed | not executed | ProjectCaseStudy.ChallengesSectionZero | ProjectCaseStudy.ChallengesSection |
| src/components/ProjectCaseStudy/ProjectCaseStudy.tsx:318 | `codeSnippets?.length && …` (and `gallery`, line 338, `outcomes`, line 365) prints `0` for a present but empty list | a project with `gallery: []` | the section is hidden, with nothing printed | not executed | ProjectCaseStudy.ListSectionZero | ProjectCaseStudy.ListSection |
| src/components/Navigation/Navigation.tsx:57-64 | missing elements are filtered out of `sections`, but `sections[i]` is still paired with `items[i]` | items home, about, projects; no `home` element; about at 200, projects at 400; `scrollY` 150 highlights `home` | highlight `about`, the item whose element is at or above the position | not executed | Navigation.MissingElementShiftsPairing | Navigation.IntendedActive |
