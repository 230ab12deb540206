/** The six tables of the database schema: one record type per table, the
    storage-level errors an insert can raise, the column defaults, and the
    key functions the UNIQUE and primary-key constraints range over. */
module Tables {
  import opened Wrappers
  import opened Query

  /** A point in time, in milliseconds: the resolution of the timestamps
      the handlers read and write. */
  type Timestamp = int

  datatype ContactForm = ContactForm(
    id: int,
    name: string,
    email: string,
    company: Option<string>,
    message: string,
    createdAt: Timestamp)

  datatype Subscription = Subscription(
    id: int,
    email: string,
    isActive: bool,
    createdAt: Timestamp)

  datatype BlogPost = BlogPost(
    id: int,
    title: string,
    slug: string,
    excerpt: Option<string>,
    content: string,
    author: string,
    featuredImageUrl: Option<string>,
    isPublished: bool,
    publishedAt: Option<Timestamp>,
    createdAt: Timestamp,
    updatedAt: Timestamp)

  datatype CaseStudy = CaseStudy(
    id: int,
    title: string,
    slug: string,
    clientName: string,
    industry: string,
    problemDescription: string,
    solutionDescription: string,
    resultsDescription: string,
    imageUrl: Option<string>,
    technologiesUsed: seq<string>,
    isFeatured: bool,
    createdAt: Timestamp,
    updatedAt: Timestamp)

  datatype Service = Service(
    id: int,
    title: string,
    slug: string,
    description: string,
    iconName: string,
    features: seq<string>,
    isActive: bool,
    displayOrder: int,
    createdAt: Timestamp,
    updatedAt: Timestamp)

  datatype TeamMember = TeamMember(
    id: int,
    name: string,
    position: string,
    bio: string,
    avatarUrl: Option<string>,
    linkedinUrl: Option<string>,
    twitterUrl: Option<string>,
    displayOrder: int,
    isActive: bool,
    createdAt: Timestamp,
    updatedAt: Timestamp)

  /** What the storage engine throws back at an insert. */
  datatype DbError =
    | UniqueViolation(constraint: string)   // a UNIQUE column already holds the value
    | NumericOutOfRange(column: string)     // a value does not fit an `integer` column

  /** The UNIQUE constraints, under the names the schema gives them. */
  const SUBSCRIPTION_EMAIL_UNIQUE := "newsletter_subscriptions_email_unique"
  const BLOG_POST_SLUG_UNIQUE := "blog_posts_slug_unique"
  const CASE_STUDY_SLUG_UNIQUE := "case_studies_slug_unique"
  const SERVICE_SLUG_UNIQUE := "services_slug_unique"

  /** An `integer` column holds a signed 32-bit value. */
  const INT4_MIN: int := -0x8000_0000
  const INT4_MAX: int := 0x7fff_ffff

  predicate FitsInteger(n: int) {
    INT4_MIN <= n <= INT4_MAX
  }

  /** Column defaults, applied when an insert leaves the column out. The
      handlers always supply is_active of a subscription, technologies_used
      and features, so only these defaults can take effect. */
  const BLOG_POST_IS_PUBLISHED_DEFAULT := false
  const CASE_STUDY_IS_FEATURED_DEFAULT := false
  const SERVICE_IS_ACTIVE_DEFAULT := true
  const SERVICE_DISPLAY_ORDER_DEFAULT := 0
  const TEAM_MEMBER_IS_ACTIVE_DEFAULT := true
  const TEAM_MEMBER_DISPLAY_ORDER_DEFAULT := 0

  /** The columns the constraints range over. */
  function ContactFormId(c: ContactForm): int { c.id }
  function SubscriptionId(s: Subscription): int { s.id }
  function SubscriptionEmail(s: Subscription): string { s.email }
  function BlogPostId(p: BlogPost): int { p.id }
  function BlogPostSlug(p: BlogPost): string { p.slug }
  function CaseStudyId(c: CaseStudy): int { c.id }
  function CaseStudySlug(c: CaseStudy): string { c.slug }
  function ServiceId(s: Service): int { s.id }
  function ServiceSlug(s: Service): string { s.slug }
  function TeamMemberId(m: TeamMember): int { m.id }

  /** A serial primary key: unique, and every stored id was handed out by
      the sequence before its next value `next`. */
  ghost predicate SerialKey<T>(t: seq<T>, id: T -> int, next: int) {
    && 1 <= next
    && UniqueColumn(t, id)
    && (forall i :: 0 <= i < |t| ==> 1 <= id(t[i]) < next)
  }

  /** A value drawn from the sequence is not yet in the table. */
  lemma NextSerialIsFresh<T>(t: seq<T>, id: T -> int, next: int)
    requires SerialKey(t, id, next)
    ensures !ColumnHas(t, id, next)
  {
    forall i | 0 <= i < |t|
      ensures id(t[i]) != next
    {
    }
  }

  /** Appending a row that carries the sequence's next value keeps the key
      serial, with the sequence one further on. */
  lemma AppendNextSerial<T>(t: seq<T>, id: T -> int, next: int, x: T)
    requires SerialKey(t, id, next)
    requires id(x) == next
    ensures SerialKey(t + [x], id, next + 1)
  {
    NextSerialIsFresh(t, id, next);
    AppendKeepsUnique(t, id, x);
    forall i | 0 <= i < |t + [x]|
      ensures 1 <= id((t + [x])[i]) < next + 1
    {
      if i < |t| {
        assert (t + [x])[i] == t[i];
      }
    }
  }

  /** Rewriting a row in place without touching its id keeps the key serial. */
  lemma ReplaceKeepsSerial<T>(t: seq<T>, id: T -> int, next: int, i: int, x: T)
    requires SerialKey(t, id, next)
    requires 0 <= i < |t| && id(x) == id(t[i])
    ensures SerialKey(t[i := x], id, next)
  {
    ReplaceKeepsUnique(t, id, i, x);
    var r := t[i := x];
    forall k | 0 <= k < |r|
      ensures 1 <= id(r[k]) < next
    {
      assert id(r[k]) == id(t[k]);
    }
  }

  /** Every published post carries its publication time, and no unpublished
      one does. Each post created through the blog-post handler keeps this. */
  predicate StampedWhenPublished(posts: seq<BlogPost>) {
    forall p :: p in posts ==> (p.isPublished <==> p.publishedAt.Some?)
  }
}
