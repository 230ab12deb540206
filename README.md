# Data-access layer of the consulting-website server, in Dafny

This project models the server side of an IT-consulting website: six
Postgres tables and the handlers behind its API. The tables are contact
forms, newsletter subscriptions, blog posts, case studies, services and
team members. The handlers create rows and read them back, and the Zod
schemas validate each create or update payload before a handler sees it.

The model replaces Postgres with in-memory tables. The current time is an
explicit argument. Each handler is one atomic step.

- `wrappers.dfy`, module `Wrappers`: `Option` and `Result`.
- `query.dfy`, module `Query`: the SQL the handlers issue, over a sequence
  of rows in storage order. `WHERE` is `Filter`. `WHERE … LIMIT 1` is
  `FirstWhere`. `ORDER BY` is `SortBy`, a stable sort under a total
  preorder. `UPDATE … WHERE` is `UpdateWhere`. A `UNIQUE` column is
  `UniqueColumn`. Beside them are lemmas on uniqueness and sortedness.
- `tables.dfy`, module `Tables`: one record type per table and the
  storage errors an insert can raise (unique violation, integer out of
  range). It also holds the constraint names, the column defaults, the
  serial-key invariant and its lemmas.
- `input_schema.dfy`, module `InputSchema`: the Zod input schemas.
  - A payload key is `Missing`, `Null` or `Given(v)`.
  - Each validator says exactly when it accepts and what it produces.
  - A refusal carries at least one issue.
  - Round-trip lemmas show, for every one of the seven schemas, that a
    valid input sent as a payload comes back unchanged.
- `read_handlers.dfy`, module `ReadHandlers`: the `get*` handlers as pure
  functions of a table. The list handlers are a filter and then a sort;
  the slug handlers are an exact, case-sensitive match behind a
  visibility flag.
- `database.dfy`, module `Store`: class `Database`, holding the six
  tables and one serial counter per table. Its `create*` methods append
  or update rows in place. `Valid()` holds serial ids, unique emails and
  unique slugs, and every method preserves it.
- `lifecycle.dfy`, module `Lifecycle`: what the handlers promise together.
  - A created row is what its slug lookup returns.
  - Subscribing twice gives one row; resubscribing reactivates it.
  - Two submissions get two ids.
  - A duplicate slug is refused.
  - Payload defaults equal column defaults.

## Model

| member | source | states |
|---|---|---|
| Query.Filter | server/src/handlers/get_active_services.ts:10 | `WHERE p` keeps exactly the rows satisfying p: each such row as many times as stored, no other row, never more rows than the table |
| Query.FirstWhere | server/src/handlers/get_blog_post_by_slug.ts:10-21 | `WHERE p LIMIT 1` returns a stored row satisfying p, and returns nothing exactly when no row satisfies p |
| Query.UpdateWhere | server/src/handlers/create_newsletter_subscription.ts:24-31 | `UPDATE … WHERE p` keeps the number of rows; which rows it rewrites, and to what, is stated by `Query.UpdateWhereSingle` |
| Query.UpdateWhereSingle | server/src/handlers/create_newsletter_subscription.ts:29 | when only row i matches the WHERE, the UPDATE rewrites row i and leaves every other row as it was |
| Query.Insert | server/src/handlers/get_active_services.ts:11 | inserting into a list adds that one row and nothing else (multiset) |
| Query.SortBy | server/src/handlers/get_active_services.ts:11 | `ORDER BY` returns a permutation of its input |
| Query.InsertSorted | server/src/handlers/get_active_services.ts:11 | under a total preorder, inserting into a sorted list keeps it sorted |
| Query.SortBySorted | server/src/handlers/get_active_services.ts:11 | under a total preorder, `ORDER BY` produces a sorted list |
| Query.AppendKeepsUnique | server/src/db/schema.ts:16 | appending a row whose key is not yet present keeps a UNIQUE column unique |
| Query.WhereUniqueSize | server/src/db/schema.ts:16 | under a UNIQUE column, `WHERE key = v` selects exactly one row if v is present and none otherwise |
| Query.ReplaceKeepsUnique | server/src/db/schema.ts:16 | rewriting a row without changing its key keeps a UNIQUE column unique |
| Query.UniqueKeySameRow | server/src/db/schema.ts:25 | under a UNIQUE column, two stored rows with the same key are the same row |
| Tables.NextSerialIsFresh | server/src/db/schema.ts:5 | the next value of a serial sequence is not yet used as an id in its table |
| Tables.AppendNextSerial | server/src/db/schema.ts:15 | appending a row with the sequence's next value keeps the ids distinct and within the handed-out range, with the sequence advanced by one |
| Tables.ReplaceKeepsSerial | server/src/db/schema.ts:15 | rewriting a row in place without changing its id keeps the serial-key invariant |
| InputSchema.RequiredText | server/src/schema.ts:17 | `z.string().min(1, msg)` accepts exactly a given non-empty string and yields it unchanged |
| InputSchema.EmailText | server/src/schema.ts:18 | `z.string().email(msg)` accepts exactly a given string the email check accepts and yields it unchanged |
| InputSchema.NullableText | server/src/schema.ts:19 | `z.string().nullable()` accepts null or a string, refuses a missing key, and maps null to no value |
| InputSchema.TextList | server/src/schema.ts:115 | `z.array(z.string())` accepts exactly a given list and yields it unchanged |
| InputSchema.FlagOr | server/src/schema.ts:67 | `z.boolean().default(d)` refuses only null; a missing key yields d and a given flag yields itself |
| InputSchema.IntegerOr | server/src/schema.ts:145 | `z.number().int().default(d)` accepts a missing key (yielding d) or a whole number (yielding it) and refuses anything else |
| InputSchema.OptionalValue | server/src/schema.ts:75 | `.optional()` refuses only null; a missing key yields no value and a given one yields itself |
| InputSchema.OptionalNullable | server/src/schema.ts:77 | `.nullable().optional()` tells apart a missing key (leave the column), null (set it to null) and a value |
| InputSchema.ValidateContactForm | server/src/schema.ts:16-21 | a contact form is accepted iff name and message are non-empty, the email passes the check and company is null or a string; the fields pass through as given; a refusal carries an issue |
| InputSchema.ContactFormRoundTrip | server/src/schema.ts:16-21 | every well-formed contact-form input, sent as a payload, is accepted unchanged |
| InputSchema.ValidateNewsletterSubscription | server/src/schema.ts:36-38 | a subscription is accepted iff the email passes the check, and yields that email; a refusal carries exactly one issue |
| InputSchema.NewsletterSubscriptionRoundTrip | server/src/schema.ts:36-38 | every subscription input whose email passes the check, sent as a payload, is accepted unchanged |
| InputSchema.ValidateBlogPost | server/src/schema.ts:60-68 | a post is accepted iff title, slug, content and author are non-empty, excerpt and featured image are null or a string, and is_published is not null; is_published defaults to false |
| InputSchema.BlogPostRoundTrip | server/src/schema.ts:60-68 | every well-formed blog-post input, sent as a payload, is accepted unchanged |
| InputSchema.ValidateBlogPostUpdate | server/src/schema.ts:73-82 | an update is accepted iff the id is given and no optional field other than excerpt and featured image is null; every field is absent exactly when its key is, a given value passes through unchanged, and an explicit null for excerpt or featured image is kept apart from absence |
| InputSchema.BlogPostUpdateRoundTrip | server/src/schema.ts:73-82 | every update input (fields left alone, set, or for excerpt and featured image cleared to null), sent as a payload, is accepted unchanged |
| InputSchema.ValidateCaseStudy | server/src/schema.ts:106-117 | a case study is accepted iff its seven text fields are non-empty, image_url is null or a string and technologies is a list; is_featured defaults to false |
| InputSchema.CaseStudyRoundTrip | server/src/schema.ts:106-117 | every well-formed case-study input, sent as a payload, is accepted unchanged |
| InputSchema.ValidateService | server/src/schema.ts:138-146 | a service is accepted iff its four text fields are non-empty, features is a list and display_order is whole or absent; is_active defaults to true and display_order to 0 |
| InputSchema.ServiceRoundTrip | server/src/schema.ts:138-146 | every well-formed service input, sent as a payload, is accepted unchanged |
| InputSchema.ValidateTeamMember | server/src/schema.ts:168-177 | a team member is accepted iff name, position and bio are non-empty, the three URLs are null or strings and display_order is whole or absent; display_order defaults to 0 and is_active to true |
| InputSchema.TeamMemberRoundTrip | server/src/schema.ts:168-177 | every well-formed team-member input, sent as a payload, is accepted unchanged |
| ReadHandlers.OrderingsAreTotalPreorders | server/src/handlers/get_published_blog_posts.ts:12-15 | every ORDER BY the handlers use (display_order ascending, created_at descending, and published_at descending with nulls last, then created_at descending) is total and transitive |
| ReadHandlers.GetActiveServices | server/src/handlers/get_active_services.ts:8-14 | exactly the active services, each as often as stored, with display_order non-decreasing; empty exactly when none is active |
| ReadHandlers.GetServiceBySlug | server/src/handlers/get_service_by_slug.ts:8-21 | a stored service with exactly this slug and is_active true; none exactly when no row has both |
| ReadHandlers.GetActiveTeamMembers | server/src/handlers/get_active_team_members.ts:8-14 | exactly the active members, each as often as stored, with display_order non-decreasing (ties all listed); empty exactly when none is active |
| ReadHandlers.GetAllCaseStudies | server/src/handlers/get_all_case_studies.ts:8-16 | every stored case study, unchanged and as often as stored, with created_at non-increasing |
| ReadHandlers.GetFeaturedCaseStudies | server/src/handlers/get_featured_case_studies.ts:8-14 | exactly the featured case studies, each as often as stored, newest first; empty exactly when none is featured |
| ReadHandlers.GetCaseStudyBySlug | server/src/handlers/get_case_study_by_slug.ts:8-22 | a stored case study with exactly this slug, with no visibility gate; none exactly when no row has the slug |
| ReadHandlers.GetContactForms | server/src/handlers/get_contact_forms.ts:8-13 | every stored submission, as often as stored, with created_at non-increasing |
| ReadHandlers.GetPublishedBlogPosts | server/src/handlers/get_published_blog_posts.ts:9-18 | exactly the published posts, each as often as stored, including those without published_at. Posts with a published_at come first, latest first; equal published_at (or both null) falls back to created_at descending. Empty exactly when none is published |
| ReadHandlers.SortedFeedIsOrdered | server/src/handlers/get_published_blog_posts.ts:13-14 | a list sorted by the feed ordering has nulls last, published_at descending and created_at descending on ties |
| ReadHandlers.GetBlogPostBySlug | server/src/handlers/get_blog_post_by_slug.ts:8-30 | a stored post with exactly this slug and is_published true; none exactly when no row has both |
| Store.LookupEmail | server/src/handlers/create_newsletter_subscription.ts:9-15 | the email lookup returns a stored row with that email, and returns nothing exactly when the email is not in the table |
| Store.ReactivateRewritesOneRow | server/src/handlers/create_newsletter_subscription.ts:24-31 | under unique ids, the reactivating UPDATE rewrites only the row with that id, to active with created_at now |
| Store.LookupEmailFindsRow | server/src/db/schema.ts:16 | under unique emails, the lookup of a stored row's email returns that row |
| Store.Database.constructor | server/src/db/schema.ts:4-80 | a new schema has six empty tables, every sequence starts at 1, and the invariant holds |
| Store.Database.CreateContactForm | server/src/handlers/create_contact_form.ts:8-18 | appends the submission verbatim (company null stays null) under an id not yet used, stamped now, and returns it |
| Store.Database.CreateNewsletterSubscription | server/src/handlers/create_newsletter_subscription.ts:6-45 | an unknown email appends one new active row; an active row is returned unchanged with the table untouched; an inactive row is reactivated in place with created_at now, under the same id, every other row unchanged. Afterwards the email's row is the active row returned |
| Store.Database.CreateBlogPost | server/src/handlers/create_blog_post.ts:5-30 | fails with the slug's unique violation, table unchanged, exactly when the slug is taken. Otherwise appends and returns the input's fields under a fresh id, published_at now exactly when published; keeps "published iff stamped" |
| Store.Database.CreateCaseStudy | server/src/handlers/create_case_study.ts:5-28 | fails with the slug's unique violation, table unchanged, exactly when the slug is taken; otherwise appends and returns all ten input fields (technologies in order) under a fresh id |
| Store.Database.CreateService | server/src/handlers/create_service.ts:5-27 | fails, table unchanged, exactly when display_order does not fit an `integer` or the slug is taken (range checked first); otherwise appends and returns the input as given under a fresh id |
| Lifecycle.BlogPostBySlugIsTheRow | server/src/tests/get_blog_post_by_slug.test.ts:34-68 | under unique slugs, a stored post's slug finds that very post when it is published and nothing when it is not |
| Lifecycle.ServiceBySlugIsTheRow | server/src/tests/get_service_by_slug.test.ts:33-73 | under unique slugs, a stored service's slug finds that very service when it is active and nothing when it is not |
| Lifecycle.CaseStudyBySlugIsTheRow | server/src/tests/get_case_study_by_slug.test.ts:39-103 | under unique slugs, a stored case study's slug always finds that very row |
| Lifecycle.SlugMatchIsCaseSensitive | server/src/tests/get_service_by_slug.test.ts:75-103 | the upper-cased slug and the empty slug find nothing; the exact slug finds the service |
| Lifecycle.OneRowPerEmail | server/src/db/schema.ts:16 | under unique emails, selecting a stored row's email gives that one row |
| Lifecycle.PayloadDefaultsAreColumnDefaults | server/src/db/schema.ts:30-77 | a payload that omits is_published, is_featured, is_active or display_order gets the value the column default would give |
| Lifecycle.CreateBlogPostThenFetch | server/src/tests/create_blog_post.test.ts:35-67 | a created post is found by its slug exactly when it was created published, with published_at now; the table gains that row only on success, and no other table changes |
| Lifecycle.CreateCaseStudyThenFetch | server/src/tests/create_case_study.test.ts:75-115 | a created case study is found by its slug, technologies in the order given; the table gains that row only on success, and no other table changes |
| Lifecycle.CreateServiceThenFetch | server/src/tests/create_service.test.ts:40-60 | a created service is found by its slug exactly when it was created active; the table gains that row only on success, and no other table changes |
| Lifecycle.CreateCaseStudyTwice | server/src/tests/create_case_study.test.ts:117-130 | a second insert with the same slug fails with the slug's unique violation; the table ends as before plus the first row if that insert succeeded, and no other table changes |
| Lifecycle.SubscribeTwice | server/src/tests/create_newsletter_subscription.test.ts:43-64 | subscribing twice with one email returns the same row, and exactly one row holds the email afterwards |
| Lifecycle.Resubscribe | server/src/tests/create_newsletter_subscription.test.ts:66-101 | resubscribing a deactivated email returns the same id, active, with a later created_at, and the email still has exactly one row |
| Lifecycle.SubscribeTwoEmails | server/src/tests/create_newsletter_subscription.test.ts:103-132 | two different new emails get two rows with distinct ids |
| Lifecycle.SubmitTwice | server/src/tests/create_contact_form.test.ts:87-111 | two identical submissions are two rows with distinct ids |

## Left out

- Storage and transport failures (connection loss, timeouts) are not modelled. The only insert errors are a unique violation and a `display_order` outside the 32-bit `integer` range.
- Every handler rethrows what the storage engine raises. A `Failure` result that reaches the caller stands for that rethrow. The `console.error` logging is not modelled.
- Concurrency is not modelled. In particular, two simultaneous subscriptions with one new email race, and the loser of the race gets a unique violation. Each handler is one atomic step here.
- The email format check is a library call. It is the parameter `isEmail`.
- Time has one clock reading per call. The handler's `new Date()` and the database's `defaultNow()` are the same instant here.
- Timestamps are integers (milliseconds). Date coercion and time zones are not modelled.
- Ties in `ORDER BY`, and `LIMIT 1` without an `ORDER BY`, follow storage order, which is the order of insertion in the model. Postgres promises neither.
- The list orderings are non-decreasing (non-increasing), not strict: rows can share a `display_order` or a `created_at`.
- A failed insert does not advance the serial counter here, while Postgres consumes a sequence value. The model thus leaves no gaps in ids.
- Serial overflow past 2^31-1 is not modelled.
- The Zod schemas in the model see only missing, null or well-typed keys. A key of the wrong JSON type is not modelled. Unknown keys, which Zod strips, are not modelled either.
- Zod issue messages are modelled, but the model does not promise their order or number beyond "at least one".
- The update-blog-post handler (server/src/handlers/update_blog_post.ts) is a placeholder that never reads the stored row, and its fallbacks disagree with its own tests. Only its input schema is modelled.
- The create-team-member handler (server/src/handlers/create_team_member.ts) is a placeholder that stores nothing. The team-members table is therefore only read; its input schema is modelled.
- The seed handlers (seed_case_studies.ts, check_and_seed_case_studies.ts) are startup data loads and are not part of this model.
- server/src/index.ts (router, HTTP, CORS) and the client components are not part of this model.
- Text limits of Postgres (a NUL character is refused in `text`) are not modelled.
- The JSON columns `technologies_used` and `features` are sequences of strings. The cast the read handlers apply is not modelled, since the stored value is already such a list.
