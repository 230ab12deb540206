/** The create and update payload schemas. A payload arrives as one Field
    per key; validation either yields the normalised input the handler is
    given (defaults filled in, null kept apart from a value) or fails with
    a non-empty list of issues. Validation is a function: it changes
    nothing. */
module InputSchema {
  import opened Wrappers

  /** One key of an incoming payload: left out, explicitly null, or given. */
  datatype Field<T> = Missing | Null | Given(value: T)

  /** A validation issue, as the schema library reports it. A missing key
      is an invalid type with `received` = "undefined" (message "Required"). */
  datatype Issue =
    | InvalidType(path: string, expected: string, received: string)
    | TooSmall(path: string, message: string)        // a `min(1)` string was empty
    | InvalidEmail(path: string, message: string)    // an `email()` string was not an address

  function Received<T>(f: Field<T>): string {
    if f.Null? then "null" else "undefined"
  }

  function IssuesOf<T>(r: Result<T, Issue>): (issues: seq<Issue>)
    ensures issues == [] <==> r.Success?
  {
    if r.Success? then [] else [r.error]
  }

  // ---- payloads a client builds from an input -----------------------------

  /** A nullable value as a payload key: null when absent. */
  function NullableFieldOf(o: Option<string>): Field<string> {
    if o.Some? then Given(o.value) else Null
  }

  /** An optional value as a payload key: left out when absent. */
  function OptionalField<T>(o: Option<T>): Field<T> {
    if o.Some? then Given(o.value) else Missing
  }

  /** An optional, nullable value: left out, null, or given. */
  function NullableField(o: Option<Option<string>>): Field<string> {
    match o
    case None => Missing
    case Some(None) => Null
    case Some(Some(v)) => Given(v)
  }

  // ---- the field rules ---------------------------------------------------

  /** `z.string().min(1, message)`: a present, non-empty string. */
  predicate NonEmpty(f: Field<string>) {
    f.Given? && |f.value| >= 1
  }

  function RequiredText(f: Field<string>, path: string, message: string): (r: Result<string, Issue>)
    ensures r.Success? <==> NonEmpty(f)
    ensures r.Success? ==> r.value == f.value
  {
    match f
    case Given(s) => if |s| >= 1 then Success(s) else Failure(TooSmall(path, message))
    case _ => Failure(InvalidType(path, "string", Received(f)))
  }

  /** `z.string().email(message)`: a present string the address check accepts. */
  predicate IsEmailField(f: Field<string>, isEmail: string -> bool) {
    f.Given? && isEmail(f.value)
  }

  function EmailText(f: Field<string>, path: string, message: string, isEmail: string -> bool)
    : (r: Result<string, Issue>)
    ensures r.Success? <==> IsEmailField(f, isEmail)
    ensures r.Success? ==> r.value == f.value
  {
    match f
    case Given(s) => if isEmail(s) then Success(s) else Failure(InvalidEmail(path, message))
    case _ => Failure(InvalidType(path, "string", Received(f)))
  }

  /** `z.string().nullable()`: the key must be there; null stays null. */
  function NullableText(f: Field<string>, path: string): (r: Result<Option<string>, Issue>)
    ensures r.Success? <==> !f.Missing?
    ensures r.Success? ==> r.value == (if f.Given? then Some(f.value) else None)
  {
    match f
    case Given(s) => Success(Some(s))
    case Null => Success(None)
    case Missing => Failure(InvalidType(path, "string", "undefined"))
  }

  /** `z.array(z.string())`: a present list, kept in order. */
  function TextList(f: Field<seq<string>>, path: string): (r: Result<seq<string>, Issue>)
    ensures r.Success? <==> f.Given?
    ensures r.Success? ==> r.value == f.value
  {
    match f
    case Given(xs) => Success(xs)
    case _ => Failure(InvalidType(path, "array", Received(f)))
  }

  /** `z.boolean().default(d)`: a left-out key takes d; null is refused. */
  function FlagOr(f: Field<bool>, path: string, default: bool): (r: Result<bool, Issue>)
    ensures r.Success? <==> !f.Null?
    ensures r.Success? ==> r.value == (if f.Given? then f.value else default)
  {
    match f
    case Given(b) => Success(b)
    case Missing => Success(default)
    case Null => Failure(InvalidType(path, "boolean", "null"))
  }

  /** A JSON number that is a whole number. */
  predicate IsWhole(x: real) {
    x.Floor as real == x
  }

  /** `z.number().int().default(d)`: a left-out key takes d; a fraction or
      null is refused. */
  predicate IntegerOrMissing(f: Field<real>) {
    f.Missing? || (f.Given? && IsWhole(f.value))
  }

  function IntegerOr(f: Field<real>, path: string, default: int): (r: Result<int, Issue>)
    ensures r.Success? <==> IntegerOrMissing(f)
    ensures r.Success? ==> (if f.Given? then r.value as real == f.value else r.value == default)
  {
    match f
    case Given(x) => if IsWhole(x) then Success(x.Floor) else Failure(InvalidType(path, "integer", "float"))
    case Missing => Success(default)
    case Null => Failure(InvalidType(path, "number", "null"))
  }

  /** `.optional()`: a left-out key means "not given"; null is refused. */
  function OptionalValue<T>(f: Field<T>, path: string, expected: string): (r: Result<Option<T>, Issue>)
    ensures r.Success? <==> !f.Null?
    ensures r.Success? ==> r.value == (if f.Given? then Some(f.value) else None)
  {
    match f
    case Given(v) => Success(Some(v))
    case Missing => Success(None)
    case Null => Failure(InvalidType(path, expected, "null"))
  }

  /** `.nullable().optional()`: left out is "not given", null is "set to null". */
  function OptionalNullable(f: Field<string>): (r: Option<Option<string>>)
    ensures r.None? <==> f.Missing?
    ensures f.Null? ==> r == Some(None)
    ensures f.Given? ==> r == Some(Some(f.value))
  {
    match f
    case Given(s) => Some(Some(s))
    case Null => Some(None)
    case Missing => None
  }

  // ---- contact form ------------------------------------------------------

  datatype RawContactForm = RawContactForm(
    name: Field<string>, email: Field<string>, company: Field<string>, message: Field<string>)

  datatype CreateContactFormInput = CreateContactFormInput(
    name: string, email: string, company: Option<string>, message: string)

  predicate ContactFormInputOk(i: CreateContactFormInput, isEmail: string -> bool) {
    |i.name| >= 1 && isEmail(i.email) && |i.message| >= 1
  }

  function ValidateContactForm(raw: RawContactForm, isEmail: string -> bool)
    : (r: Result<CreateContactFormInput, seq<Issue>>)
    ensures r.Success? <==>
      NonEmpty(raw.name) && IsEmailField(raw.email, isEmail) && !raw.company.Missing? && NonEmpty(raw.message)
    ensures r.Success? ==>
      && r.value.name == raw.name.value
      && r.value.email == raw.email.value
      && r.value.company == (if raw.company.Given? then Some(raw.company.value) else None)
      && r.value.message == raw.message.value
      && ContactFormInputOk(r.value, isEmail)
    ensures r.Failure? ==> r.error != []
  {
    var name := RequiredText(raw.name, "name", "Name is required");
    var email := EmailText(raw.email, "email", "Valid email is required", isEmail);
    var company := NullableText(raw.company, "company");
    var message := RequiredText(raw.message, "message", "Message is required");
    var issues := IssuesOf(name) + IssuesOf(email) + IssuesOf(company) + IssuesOf(message);
    if issues == [] then
      Success(CreateContactFormInput(name.value, email.value, company.value, message.value))
    else
      Failure(issues)
  }

  /** The payload that spells out every field of a contact-form input. */
  function ContactFormPayload(i: CreateContactFormInput): RawContactForm {
    RawContactForm(Given(i.name), Given(i.email),
                   NullableFieldOf(i.company),
                   Given(i.message))
  }

  lemma ContactFormRoundTrip(i: CreateContactFormInput, isEmail: string -> bool)
    requires ContactFormInputOk(i, isEmail)
    ensures ValidateContactForm(ContactFormPayload(i), isEmail) == Success(i)
  {
  }

  // ---- newsletter subscription -------------------------------------------

  datatype RawNewsletterSubscription = RawNewsletterSubscription(email: Field<string>)

  datatype CreateNewsletterSubscriptionInput = CreateNewsletterSubscriptionInput(email: string)

  function ValidateNewsletterSubscription(raw: RawNewsletterSubscription, isEmail: string -> bool)
    : (r: Result<CreateNewsletterSubscriptionInput, seq<Issue>>)
    ensures r.Success? <==> IsEmailField(raw.email, isEmail)
    ensures r.Success? ==> r.value.email == raw.email.value && isEmail(r.value.email)
    ensures r.Failure? ==> |r.error| == 1
  {
    var email := EmailText(raw.email, "email", "Valid email is required", isEmail);
    if email.Success? then Success(CreateNewsletterSubscriptionInput(email.value)) else Failure([email.error])
  }

  lemma NewsletterSubscriptionRoundTrip(i: CreateNewsletterSubscriptionInput, isEmail: string -> bool)
    requires isEmail(i.email)
    ensures ValidateNewsletterSubscription(RawNewsletterSubscription(Given(i.email)), isEmail) == Success(i)
  {
  }

  // ---- blog post ---------------------------------------------------------

  datatype RawBlogPost = RawBlogPost(
    title: Field<string>, slug: Field<string>, excerpt: Field<string>, content: Field<string>,
    author: Field<string>, featuredImageUrl: Field<string>, isPublished: Field<bool>)

  datatype CreateBlogPostInput = CreateBlogPostInput(
    title: string, slug: string, excerpt: Option<string>, content: string,
    author: string, featuredImageUrl: Option<string>, isPublished: bool)

  predicate BlogPostInputOk(i: CreateBlogPostInput) {
    |i.title| >= 1 && |i.slug| >= 1 && |i.content| >= 1 && |i.author| >= 1
  }

  function ValidateBlogPost(raw: RawBlogPost): (r: Result<CreateBlogPostInput, seq<Issue>>)
    ensures r.Success? <==>
      && NonEmpty(raw.title) && NonEmpty(raw.slug) && !raw.excerpt.Missing?
      && NonEmpty(raw.content) && NonEmpty(raw.author) && !raw.featuredImageUrl.Missing?
      && !raw.isPublished.Null?
    ensures r.Success? ==>
      && r.value.title == raw.title.value
      && r.value.slug == raw.slug.value
      && r.value.excerpt == (if raw.excerpt.Given? then Some(raw.excerpt.value) else None)
      && r.value.content == raw.content.value
      && r.value.author == raw.author.value
      && r.value.featuredImageUrl == (if raw.featuredImageUrl.Given? then Some(raw.featuredImageUrl.value) else None)
      && r.value.isPublished == (raw.isPublished.Given? && raw.isPublished.value)
      && BlogPostInputOk(r.value)
    ensures r.Failure? ==> r.error != []
  {
    var title := RequiredText(raw.title, "title", "Title is required");
    var slug := RequiredText(raw.slug, "slug", "Slug is required");
    var excerpt := NullableText(raw.excerpt, "excerpt");
    var content := RequiredText(raw.content, "content", "Content is required");
    var author := RequiredText(raw.author, "author", "Author is required");
    var image := NullableText(raw.featuredImageUrl, "featured_image_url");
    var published := FlagOr(raw.isPublished, "is_published", false);
    var issues := IssuesOf(title) + IssuesOf(slug) + IssuesOf(excerpt) + IssuesOf(content)
                + IssuesOf(author) + IssuesOf(image) + IssuesOf(published);
    if issues == [] then
      Success(CreateBlogPostInput(title.value, slug.value, excerpt.value, content.value,
                                  author.value, image.value, published.value))
    else
      Failure(issues)
  }

  function BlogPostPayload(i: CreateBlogPostInput): RawBlogPost {
    RawBlogPost(Given(i.title), Given(i.slug),
                NullableFieldOf(i.excerpt),
                Given(i.content), Given(i.author),
                NullableFieldOf(i.featuredImageUrl),
                Given(i.isPublished))
  }

  lemma BlogPostRoundTrip(i: CreateBlogPostInput)
    requires BlogPostInputOk(i)
    ensures ValidateBlogPost(BlogPostPayload(i)) == Success(i)
  {
  }

  // ---- blog post update --------------------------------------------------

  datatype RawBlogPostUpdate = RawBlogPostUpdate(
    id: Field<real>, title: Field<string>, slug: Field<string>, excerpt: Field<string>,
    content: Field<string>, author: Field<string>, featuredImageUrl: Field<string>,
    isPublished: Field<bool>)

  /** None: leave the column as it is. For excerpt and featured image,
      Some(None) sets the column to null. */
  datatype UpdateBlogPostInput = UpdateBlogPostInput(
    id: real, title: Option<string>, slug: Option<string>, excerpt: Option<Option<string>>,
    content: Option<string>, author: Option<string>, featuredImageUrl: Option<Option<string>>,
    isPublished: Option<bool>)

  function ValidateBlogPostUpdate(raw: RawBlogPostUpdate): (r: Result<UpdateBlogPostInput, seq<Issue>>)
    ensures r.Success? <==>
      && raw.id.Given?
      && !raw.title.Null? && !raw.slug.Null? && !raw.content.Null? && !raw.author.Null?
      && !raw.isPublished.Null?
    ensures r.Success? ==>
      && r.value.id == raw.id.value
      && (r.value.title.Some? <==> raw.title.Given?)
      && (r.value.title.Some? ==> r.value.title.value == raw.title.value)
      && (r.value.slug.Some? <==> raw.slug.Given?)
      && (r.value.slug.Some? ==> r.value.slug.value == raw.slug.value)
      && (r.value.excerpt.None? <==> raw.excerpt.Missing?)
      && (raw.excerpt.Null? ==> r.value.excerpt == Some(None))
      && (raw.excerpt.Given? ==> r.value.excerpt == Some(Some(raw.excerpt.value)))
      && (r.value.content.Some? <==> raw.content.Given?)
      && (r.value.content.Some? ==> r.value.content.value == raw.content.value)
      && (r.value.author.Some? <==> raw.author.Given?)
      && (r.value.author.Some? ==> r.value.author.value == raw.author.value)
      && (r.value.featuredImageUrl.None? <==> raw.featuredImageUrl.Missing?)
      && (raw.featuredImageUrl.Null? ==> r.value.featuredImageUrl == Some(None))
      && (raw.featuredImageUrl.Given? ==> r.value.featuredImageUrl == Some(Some(raw.featuredImageUrl.value)))
      && (r.value.isPublished.Some? <==> raw.isPublished.Given?)
      && (r.value.isPublished.Some? ==> r.value.isPublished.value == raw.isPublished.value)
    ensures r.Failure? ==> r.error != []
  {
    var id := match raw.id
      case Given(x) => Success(x)
      case _ => Failure(InvalidType("id", "number", Received(raw.id)));
    var title := OptionalValue(raw.title, "title", "string");
    var slug := OptionalValue(raw.slug, "slug", "string");
    var content := OptionalValue(raw.content, "content", "string");
    var author := OptionalValue(raw.author, "author", "string");
    var published := OptionalValue(raw.isPublished, "is_published", "boolean");
    var issues := IssuesOf(id) + IssuesOf(title) + IssuesOf(slug) + IssuesOf(content)
                + IssuesOf(author) + IssuesOf(published);
    if issues == [] then
      Success(UpdateBlogPostInput(id.value, title.value, slug.value, OptionalNullable(raw.excerpt),
                                  content.value, author.value, OptionalNullable(raw.featuredImageUrl),
                                  published.value))
    else
      Failure(issues)
  }

  /** The payload a client sends for an update: a field to leave alone is
      left out, and a column to clear is sent as null. */
  function BlogPostUpdatePayload(i: UpdateBlogPostInput): RawBlogPostUpdate {
    RawBlogPostUpdate(Given(i.id), OptionalField(i.title), OptionalField(i.slug),
                      NullableField(i.excerpt), OptionalField(i.content), OptionalField(i.author),
                      NullableField(i.featuredImageUrl), OptionalField(i.isPublished))
  }

  /** Every update input, sent as a payload, is accepted unchanged: in
      particular "leave the column" and "set it to null" stay apart. */
  lemma BlogPostUpdateRoundTrip(i: UpdateBlogPostInput)
    ensures ValidateBlogPostUpdate(BlogPostUpdatePayload(i)) == Success(i)
  {
  }

  // ---- case study --------------------------------------------------------

  datatype RawCaseStudy = RawCaseStudy(
    title: Field<string>, slug: Field<string>, clientName: Field<string>, industry: Field<string>,
    problemDescription: Field<string>, solutionDescription: Field<string>,
    resultsDescription: Field<string>, imageUrl: Field<string>,
    technologiesUsed: Field<seq<string>>, isFeatured: Field<bool>)

  datatype CreateCaseStudyInput = CreateCaseStudyInput(
    title: string, slug: string, clientName: string, industry: string,
    problemDescription: string, solutionDescription: string, resultsDescription: string,
    imageUrl: Option<string>, technologiesUsed: seq<string>, isFeatured: bool)

  predicate CaseStudyInputOk(i: CreateCaseStudyInput) {
    && |i.title| >= 1 && |i.slug| >= 1 && |i.clientName| >= 1 && |i.industry| >= 1
    && |i.problemDescription| >= 1 && |i.solutionDescription| >= 1 && |i.resultsDescription| >= 1
  }

  function ValidateCaseStudy(raw: RawCaseStudy): (r: Result<CreateCaseStudyInput, seq<Issue>>)
    ensures r.Success? <==>
      && NonEmpty(raw.title) && NonEmpty(raw.slug) && NonEmpty(raw.clientName) && NonEmpty(raw.industry)
      && NonEmpty(raw.problemDescription) && NonEmpty(raw.solutionDescription)
      && NonEmpty(raw.resultsDescription) && !raw.imageUrl.Missing?
      && raw.technologiesUsed.Given? && !raw.isFeatured.Null?
    ensures r.Success? ==>
      && r.value.title == raw.title.value
      && r.value.slug == raw.slug.value
      && r.value.clientName == raw.clientName.value
      && r.value.industry == raw.industry.value
      && r.value.problemDescription == raw.problemDescription.value
      && r.value.solutionDescription == raw.solutionDescription.value
      && r.value.resultsDescription == raw.resultsDescription.value
      && r.value.imageUrl == (if raw.imageUrl.Given? then Some(raw.imageUrl.value) else None)
      && r.value.technologiesUsed == raw.technologiesUsed.value
      && r.value.isFeatured == (raw.isFeatured.Given? && raw.isFeatured.value)
      && CaseStudyInputOk(r.value)
    ensures r.Failure? ==> r.error != []
  {
    var title := RequiredText(raw.title, "title", "Title is required");
    var slug := RequiredText(raw.slug, "slug", "Slug is required");
    var client := RequiredText(raw.clientName, "client_name", "Client name is required");
    var industry := RequiredText(raw.industry, "industry", "Industry is required");
    var problem := RequiredText(raw.problemDescription, "problem_description", "Problem description is required");
    var solution := RequiredText(raw.solutionDescription, "solution_description", "Solution description is required");
    var results := RequiredText(raw.resultsDescription, "results_description", "Results description is required");
    var image := NullableText(raw.imageUrl, "image_url");
    var technologies := TextList(raw.technologiesUsed, "technologies_used");
    var featured := FlagOr(raw.isFeatured, "is_featured", false);
    var issues := IssuesOf(title) + IssuesOf(slug) + IssuesOf(client) + IssuesOf(industry)
                + IssuesOf(problem) + IssuesOf(solution) + IssuesOf(results) + IssuesOf(image)
                + IssuesOf(technologies) + IssuesOf(featured);
    if issues == [] then
      Success(CreateCaseStudyInput(title.value, slug.value, client.value, industry.value,
                                   problem.value, solution.value, results.value, image.value,
                                   technologies.value, featured.value))
    else
      Failure(issues)
  }

  function CaseStudyPayload(i: CreateCaseStudyInput): RawCaseStudy {
    RawCaseStudy(Given(i.title), Given(i.slug), Given(i.clientName), Given(i.industry),
                 Given(i.problemDescription), Given(i.solutionDescription),
                 Given(i.resultsDescription),
                 NullableFieldOf(i.imageUrl),
                 Given(i.technologiesUsed), Given(i.isFeatured))
  }

  lemma CaseStudyRoundTrip(i: CreateCaseStudyInput)
    requires CaseStudyInputOk(i)
    ensures ValidateCaseStudy(CaseStudyPayload(i)) == Success(i)
  {
  }

  // ---- service -----------------------------------------------------------

  datatype RawService = RawService(
    title: Field<string>, slug: Field<string>, description: Field<string>, iconName: Field<string>,
    features: Field<seq<string>>, isActive: Field<bool>, displayOrder: Field<real>)

  datatype CreateServiceInput = CreateServiceInput(
    title: string, slug: string, description: string, iconName: string,
    features: seq<string>, isActive: bool, displayOrder: int)

  predicate ServiceInputOk(i: CreateServiceInput) {
    |i.title| >= 1 && |i.slug| >= 1 && |i.description| >= 1 && |i.iconName| >= 1
  }

  function ValidateService(raw: RawService): (r: Result<CreateServiceInput, seq<Issue>>)
    ensures r.Success? <==>
      && NonEmpty(raw.title) && NonEmpty(raw.slug) && NonEmpty(raw.description) && NonEmpty(raw.iconName)
      && raw.features.Given? && !raw.isActive.Null? && IntegerOrMissing(raw.displayOrder)
    ensures r.Success? ==>
      && r.value.title == raw.title.value
      && r.value.slug == raw.slug.value
      && r.value.description == raw.description.value
      && r.value.iconName == raw.iconName.value
      && r.value.features == raw.features.value
      && r.value.isActive == (raw.isActive.Given? ==> raw.isActive.value)
      && (raw.displayOrder.Given? ==> r.value.displayOrder as real == raw.displayOrder.value)
      && (raw.displayOrder.Missing? ==> r.value.displayOrder == 0)
      && ServiceInputOk(r.value)
    ensures r.Failure? ==> r.error != []
  {
    var title := RequiredText(raw.title, "title", "Title is required");
    var slug := RequiredText(raw.slug, "slug", "Slug is required");
    var description := RequiredText(raw.description, "description", "Description is required");
    var icon := RequiredText(raw.iconName, "icon_name", "Icon name is required");
    var features := TextList(raw.features, "features");
    var active := FlagOr(raw.isActive, "is_active", true);
    var order := IntegerOr(raw.displayOrder, "display_order", 0);
    var issues := IssuesOf(title) + IssuesOf(slug) + IssuesOf(description) + IssuesOf(icon)
                + IssuesOf(features) + IssuesOf(active) + IssuesOf(order);
    if issues == [] then
      Success(CreateServiceInput(title.value, slug.value, description.value, icon.value,
                                 features.value, active.value, order.value))
    else
      Failure(issues)
  }

  function ServicePayload(i: CreateServiceInput): RawService {
    RawService(Given(i.title), Given(i.slug), Given(i.description), Given(i.iconName),
               Given(i.features), Given(i.isActive), Given(i.displayOrder as real))
  }

  lemma ServiceRoundTrip(i: CreateServiceInput)
    requires ServiceInputOk(i)
    ensures ValidateService(ServicePayload(i)) == Success(i)
  {
  }

  // ---- team member -------------------------------------------------------

  datatype RawTeamMember = RawTeamMember(
    name: Field<string>, position: Field<string>, bio: Field<string>, avatarUrl: Field<string>,
    linkedinUrl: Field<string>, twitterUrl: Field<string>, displayOrder: Field<real>,
    isActive: Field<bool>)

  datatype CreateTeamMemberInput = CreateTeamMemberInput(
    name: string, position: string, bio: string, avatarUrl: Option<string>,
    linkedinUrl: Option<string>, twitterUrl: Option<string>, displayOrder: int, isActive: bool)

  predicate TeamMemberInputOk(i: CreateTeamMemberInput) {
    |i.name| >= 1 && |i.position| >= 1 && |i.bio| >= 1
  }

  function ValidateTeamMember(raw: RawTeamMember): (r: Result<CreateTeamMemberInput, seq<Issue>>)
    ensures r.Success? <==>
      && NonEmpty(raw.name) && NonEmpty(raw.position) && NonEmpty(raw.bio)
      && !raw.avatarUrl.Missing? && !raw.linkedinUrl.Missing? && !raw.twitterUrl.Missing?
      && IntegerOrMissing(raw.displayOrder) && !raw.isActive.Null?
    ensures r.Success? ==>
      && r.value.name == raw.name.value
      && r.value.position == raw.position.value
      && r.value.bio == raw.bio.value
      && r.value.avatarUrl == (if raw.avatarUrl.Given? then Some(raw.avatarUrl.value) else None)
      && r.value.linkedinUrl == (if raw.linkedinUrl.Given? then Some(raw.linkedinUrl.value) else None)
      && r.value.twitterUrl == (if raw.twitterUrl.Given? then Some(raw.twitterUrl.value) else None)
      && (raw.displayOrder.Given? ==> r.value.displayOrder as real == raw.displayOrder.value)
      && (raw.displayOrder.Missing? ==> r.value.displayOrder == 0)
      && r.value.isActive == (raw.isActive.Given? ==> raw.isActive.value)
      && TeamMemberInputOk(r.value)
    ensures r.Failure? ==> r.error != []
  {
    var name := RequiredText(raw.name, "name", "Name is required");
    var position := RequiredText(raw.position, "position", "Position is required");
    var bio := RequiredText(raw.bio, "bio", "Bio is required");
    var avatar := NullableText(raw.avatarUrl, "avatar_url");
    var linkedin := NullableText(raw.linkedinUrl, "linkedin_url");
    var twitter := NullableText(raw.twitterUrl, "twitter_url");
    var order := IntegerOr(raw.displayOrder, "display_order", 0);
    var active := FlagOr(raw.isActive, "is_active", true);
    var issues := IssuesOf(name) + IssuesOf(position) + IssuesOf(bio) + IssuesOf(avatar)
                + IssuesOf(linkedin) + IssuesOf(twitter) + IssuesOf(order) + IssuesOf(active);
    if issues == [] then
      Success(CreateTeamMemberInput(name.value, position.value, bio.value, avatar.value,
                                    linkedin.value, twitter.value, order.value, active.value))
    else
      Failure(issues)
  }

  function TeamMemberPayload(i: CreateTeamMemberInput): RawTeamMember {
    RawTeamMember(Given(i.name), Given(i.position), Given(i.bio), NullableFieldOf(i.avatarUrl),
                  NullableFieldOf(i.linkedinUrl), NullableFieldOf(i.twitterUrl),
                  Given(i.displayOrder as real), Given(i.isActive))
  }

  lemma TeamMemberRoundTrip(i: CreateTeamMemberInput)
    requires TeamMemberInputOk(i)
    ensures ValidateTeamMember(TeamMemberPayload(i)) == Success(i)
  {
  }
}
