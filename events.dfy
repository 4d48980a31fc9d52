/**
 * Events: the model's fields and choices, what the serializer and the viewset do
 * with them, the per-action permissions, and the two list filters.
 * Dates are day numbers, times seconds after midnight, prices integer cents.
 */
module Events {
  import opened Wrappers
  import opened Permissions
  import Seqs

  datatype Category = Movie | Concert | Sports | Theater

  /** The stored value of each choice of `CATEGORY_CHOICES`. */
  function CategoryName(c: Category): string {
    match c
    case Movie => "movie"
    case Concert => "concert"
    case Sports => "sports"
    case Theater => "theater"
  }

  /** The choice a stored or requested value denotes, if any. */
  function ParseCategory(s: string): (c: Option<Category>)
    ensures c.Some? ==> CategoryName(c.value) == s
    ensures c.None? ==> forall k: Category :: CategoryName(k) != s
  {
    if s == "movie" then Some(Movie)
    else if s == "concert" then Some(Concert)
    else if s == "sports" then Some(Sports)
    else if s == "theater" then Some(Theater)
    else None
  }

  /** Every choice's stored value reads back as that choice. */
  lemma CategoryRoundTrip(c: Category)
    ensures ParseCategory(CategoryName(c)) == Some(c)
  {
  }

  /** An `Event` row. `price` has two decimal places, so cents hold it exactly. */
  datatype Event = Event(
    id: nat, title: string, description: string, category: Category, venue: string,
    date: int, time: int, totalSeats: int, availableSeats: int, priceCents: int, createdBy: nat)

  /** The validated fields of a create or update request (server-controlled fields excluded). */
  datatype EventInput = EventInput(
    title: string, description: string, category: Category, venue: string,
    date: int, time: int, totalSeats: int, availableSeats: int, priceCents: int)

  /**
   * `EventSerializer.create` under `perform_create`: the supplied `available_seats`
   * is replaced by `total_seats` and `created_by` is the requester.
   */
  function NewEvent(id: nat, input: EventInput, creator: User): (e: Event)
    ensures e.availableSeats == e.totalSeats == input.totalSeats
    ensures e.createdBy == creator.id && e.id == id
    ensures e.title == input.title && e.category == input.category && e.priceCents == input.priceCents
    ensures e.date == input.date && e.time == input.time && e.venue == input.venue
  {
    Event(id, input.title, input.description, input.category, input.venue, input.date, input.time,
          input.totalSeats, input.totalSeats, input.priceCents, creator.id)
  }

  /**
   * The update path (not overridden): the validated fields, `available_seats`
   * included, are saved as given; `id` and `created_by` are read-only.
   */
  function UpdatedEvent(e: Event, input: EventInput): (u: Event)
    ensures u.id == e.id && u.createdBy == e.createdBy
    ensures u.availableSeats == input.availableSeats && u.totalSeats == input.totalSeats
    ensures u.title == input.title && u.category == input.category && u.priceCents == input.priceCents
  {
    Event(e.id, input.title, input.description, input.category, input.venue, input.date, input.time,
          input.totalSeats, input.availableSeats, input.priceCents, e.createdBy)
  }

  /** Only create overrides `available_seats`: an update can give a value other than the total. */
  lemma OnlyCreateResetsSeats(e: Event, input: EventInput, creator: User)
    requires input.availableSeats != input.totalSeats
    ensures NewEvent(e.id, input, creator).availableSeats == input.totalSeats
    ensures UpdatedEvent(e, input).availableSeats != UpdatedEvent(e, input).totalSeats
  {
  }

  // ---- ordering and the list filters ----------------------------------------

  /** `ordering = ['date', 'time']`: by date, then by time. */
  predicate ListedBefore(a: Event, b: Event) {
    a.date < b.date || (a.date == b.date && a.time <= b.time)
  }

  /** `upcoming`: the events dated today or later. */
  function Upcoming(listing: seq<Event>, today: int): (r: seq<Event>)
    ensures forall e :: e in r <==> e in listing && e.date >= today
  {
    Seqs.Filter(listing, (e: Event) => e.date >= today)
  }

  /** The upcoming list is ordered like the full listing. */
  lemma {:induction false} UpcomingKeepsOrder(listing: seq<Event>, today: int)
    requires Seqs.SortedBy(listing, ListedBefore)
    ensures Seqs.SortedBy(Upcoming(listing, today), ListedBefore)
  {
    Seqs.FilterKeepsOrder(listing, (e: Event) => e.date >= today, ListedBefore);
  }

  datatype CategoryReply = CategoryRequired | Matching(events: seq<Event>) {
    function Status(): int { if CategoryRequired? then 400 else 200 }
  }

  /**
   * `by_category`: without a (non-empty) `category` parameter, 400 "Category
   * parameter required"; otherwise the events whose stored category equals it.
   * An unknown value matches nothing.
   */
  function ByCategory(listing: seq<Event>, category: Option<string>): (r: CategoryReply)
    ensures r.CategoryRequired? <==> !Provided(category)
    ensures r.Matching? ==> forall e :: e in r.events <==> e in listing && CategoryName(e.category) == category.value
    ensures r.Matching? && ParseCategory(category.value).None? ==> r.events == []
  {
    if Provided(category) then
      var matching := Seqs.Filter(listing, (e: Event) => CategoryName(e.category) == category.value);
      assert matching != [] ==> matching[0] in matching;
      Matching(matching)
    else CategoryRequired
  }

  // ---- permissions ------------------------------------------------------------

  /** The permission class `get_permissions` picks for an action. */
  datatype EventPermission = AdminOnly | AuthenticatedOrReadOnly

  const WriteActions: set<string> := {"create", "update", "partial_update", "destroy"}
  const SafeMethods: set<string> := {"GET", "HEAD", "OPTIONS"}

  function PermissionFor(action: string): (k: EventPermission)
    ensures k == AdminOnly <==> action in WriteActions
  {
    if action in WriteActions then AdminOnly else AuthenticatedOrReadOnly
  }

  /** Whether a request for `action` with HTTP `verb` passes the event viewset's permission. */
  predicate MayPerform(action: string, verb: string, p: Principal) {
    match PermissionFor(action)
    case AdminOnly => IsAdminUser(p)
    case AuthenticatedOrReadOnly => verb in SafeMethods || p.IsAuthenticated()
  }

  /** Writing actions are for admins only; reading is open to everyone. */
  lemma {:induction false} EventPermissions(action: string, verb: string, p: Principal)
    ensures action in WriteActions ==> (MayPerform(action, verb, p) <==> IsAdminUser(p))
    ensures action !in WriteActions && verb in SafeMethods ==> MayPerform(action, verb, p)
    ensures p == Anonymous && MayPerform(action, verb, p) ==> action !in WriteActions && verb in SafeMethods
    ensures IsAdminUser(p) ==> MayPerform(action, verb, p)
  {
  }
}
