/**
 * The booking tables and what each request does to them when it runs alone.  Every request is a
 * function from the tables to the tables and an outcome; `Desk` is the code these functions specify.
 */
module Booking {
  import opened Availability
  import opened Zones
  import opened Shifts

  type Id = int

  // app/core/config.py
  const SLOT_STEP := 15 * MINUTE
  const BOOKING_LEAD := 30 * MINUTE
  const CHANGE_CUTOFF := 120 * MINUTE
  // app/workers/tasks.py
  const PENDING_LIFETIME := 30 * MINUTE

  datatype Status = Pending | Confirmed | Completed | Cancelled | NoShow {
    predicate Live() { Pending? || Confirmed? }
  }

  datatype Appointment = Appointment(customer: Id, barber: Id, service: Id, start: int, end: int,
                                     status: Status, price: int, created: int)
  {
    function Time(): Span { Span(start, end) }
    predicate Holds(b: Id) { barber == b && status.Live() }
  }

  datatype Barber = Barber(shop: Id, active: bool, services: set<Id>)
  datatype Service = Service(shop: Id, duration: int, price: int, active: bool)
  datatype Shop = Shop(zone: Zone, active: bool, requiresConfirmation: bool)
  datatype WorkingHours = WorkingHours(barber: Id, shift: Shift)
  datatype Break = Break(barber: Id, start: int, end: int) {
    function Time(): Span { Span(start, end) }
  }
  datatype Closure = Closure(shop: Id, first: int, last: int)

  datatype Tables = Tables(barbers: map<Id, Barber>, services: map<Id, Service>, shops: map<Id, Shop>,
                           hours: seq<WorkingHours>, breaks: map<Id, Break>, closures: map<Id, Closure>,
                           appointments: map<Id, Appointment>)

  datatype Outcome = Done | NotFound | Invalid | Forbidden | InvalidTransition | CutoffPassed
                   | SlotTaken | OutsideWorkingHours | Conflict | ServerError

  datatype Reply = Reply(tables: Tables, outcome: Outcome)

  /** Who is asking, as far as the permission checks tell people apart. */
  datatype Actor = Staff | Customer | Stranger

  /** Which live appointments an availability query leaves out. */
  datatype Leaving = Nobody | One(id: Id) | Everybody {
    predicate Keeps(other: Id) { Nobody? || (One? && other != id) }
  }

  // ---- table constraints ----

  /** The CHECK constraints and foreign keys the proofs lean on. */
  ghost predicate WellFormed(s: Tables) {
    && (forall b | b in s.barbers :: s.barbers[b].shop in s.shops)
    && (forall v | v in s.services :: 0 < s.services[v].duration <= 480 * MINUTE && 0 <= s.services[v].price)
    && (forall h | h in s.shops :: s.shops[h].zone.Agrees())
    && (forall k | k in s.breaks :: s.breaks[k].start < s.breaks[k].end)
    && (forall a | a in s.appointments :: s.appointments[a].start < s.appointments[a].end)
    && (forall a | a in s.appointments :: s.appointments[a].barber in s.barbers)
  }

  /** `end_after_start` and `total_price_non_negative`. */
  predicate RowChecks(a: Appointment) {
    a.start < a.end && 0 <= a.price
  }

  predicate Clashing(a: Appointment, b: Appointment) {
    a.status.Live() && b.status.Live() && a.barber == b.barber && a.Time().Overlaps(b.Time())
  }

  /** `no_double_booking`, as it is checked when the row `id` is written. */
  predicate Exclusive(s: Tables, id: Id, a: Appointment) {
    forall o | o in s.appointments && o != id :: !Clashing(a, s.appointments[o])
  }

  /** `no_double_booking`, of the whole table. */
  ghost predicate NoDoubleBooking(rows: map<Id, Appointment>) {
    forall i, j | i in rows && j in rows && i != j :: !Clashing(rows[i], rows[j])
  }

  function Put(s: Tables, id: Id, a: Appointment): Tables {
    s.(appointments := s.appointments[id := a])
  }

  /** Writing one row where an exclusion violation is reported as SLOT_TAKEN. */
  function CommitOrSlotTaken(s: Tables, id: Id, a: Appointment): Reply {
    if !RowChecks(a) then Reply(s, ServerError)
    else if !Exclusive(s, id, a) then Reply(s, SlotTaken)
    else Reply(Put(s, id, a), Done)
  }

  /** Writing one row with a plain commit. */
  function Commit(s: Tables, id: Id, a: Appointment): Reply {
    if RowChecks(a) && Exclusive(s, id, a) then Reply(Put(s, id, a), Done) else Reply(s, ServerError)
  }

  // ---- who may be booked for what ----

  function Resolve(s: Tables, barber: Id, service: Id): Outcome {
    if barber !in s.barbers || !s.barbers[barber].active then NotFound
    else if service !in s.services || !s.services[service].active then NotFound
    else if s.services[service].shop != s.barbers[barber].shop then Invalid
    else if service !in s.barbers[barber].services then Invalid
    else Done
  }

  /** `Resolve`, and the shop must be open for business too. */
  function LoadAndValidate(s: Tables, barber: Id, service: Id): Outcome {
    if barber !in s.barbers || !s.barbers[barber].active then NotFound
    else if s.barbers[barber].shop !in s.shops || !s.shops[s.barbers[barber].shop].active then NotFound
    else Resolve(s, barber, service)
  }

  predicate HasShop(s: Tables, barber: Id) {
    barber in s.barbers && s.barbers[barber].shop in s.shops
  }

  function ZoneOf(s: Tables, barber: Id): Zone
    requires HasShop(s, barber)
  {
    s.shops[s.barbers[barber].shop].zone
  }

  // ---- availability, as sets of instants ----

  /** `date.weekday()` of a date ordinal. */
  function Weekday(day: int): int { (day + 6) % 7 }

  predicate Shut(s: Tables, shop: Id, day: int) {
    exists c | c in s.closures :: s.closures[c].shop == shop && s.closures[c].first <= day <= s.closures[c].last
  }

  predicate Rostered(row: WorkingHours, barber: Id, day: int) {
    row.barber == barber && row.shift.weekday == Weekday(day)
  }

  function ShiftOn(row: WorkingHours, day: int, zone: Zone): Conversion {
    WorkingInterval(day, row.shift.start, row.shift.end, zone)
  }

  predicate OnShift(row: WorkingHours, barber: Id, day: int, zone: Zone, u: int) {
    Rostered(row, barber, day) && ShiftOn(row, day, zone).Made? && ShiftOn(row, day, zone).i.Covers(u)
  }

  ghost predicate Working(s: Tables, barber: Id, day: int, zone: Zone, u: int) {
    exists k | 0 <= k < |s.hours| :: OnShift(s.hours[k], barber, day, zone, u)
  }

  /** Some shift of the day converts to an interval that cannot be built. */
  ghost predicate BadShift(s: Tables, barber: Id, day: int, zone: Zone) {
    exists k | 0 <= k < |s.hours| :: Rostered(s.hours[k], barber, day) && ShiftOn(s.hours[k], day, zone).Raises?
  }

  ghost predicate Taken(s: Tables, barber: Id, leaving: Leaving, u: int) {
    exists a | a in s.appointments ::
      s.appointments[a].Holds(barber) && leaving.Keeps(a) && s.appointments[a].Time().Covers(u)
  }

  ghost predicate OnBreak(s: Tables, barber: Id, u: int) {
    exists k | k in s.breaks :: s.breaks[k].barber == barber && s.breaks[k].Time().Covers(u)
  }

  /** An instant of the local day at which the barber can be booked. */
  ghost predicate OpenAt(s: Tables, barber: Id, day: int, leaving: Leaving, u: int)
    requires HasShop(s, barber)
  {
    var zone := ZoneOf(s, barber);
    && zone.DayStart(day) <= u < zone.DayStart(day + 1)
    && Working(s, barber, day, zone, u)
    && !Taken(s, barber, leaving, u) && !OnBreak(s, barber, u)
  }

  /** `t` is among the slots the availability endpoint shows for the day. */
  ghost predicate Offered(s: Tables, barber: Id, service: Id, day: int, now: int, leaving: Leaving, t: int)
    requires HasShop(s, barber) && service in s.services
  {
    && !Shut(s, s.barbers[barber].shop, day)
    && OnGrid(t, SLOT_STEP, ZoneOf(s, barber).DayStart(day)) && now + BOOKING_LEAD <= t
    && forall u | t <= u < t + s.services[service].duration :: OpenAt(s, barber, day, leaving, u)
  }

  /** Why no list can be shown at all; `Done` when one can. */
  ghost function Refusal(s: Tables, barber: Id, service: Id, day: int): Outcome {
    if LoadAndValidate(s, barber, service) != Done then LoadAndValidate(s, barber, service)
    else if LocalDayBounds(day, ZoneOf(s, barber)).Raises? then ServerError
    else if !Shut(s, s.barbers[barber].shop, day) && BadShift(s, barber, day, ZoneOf(s, barber)) then ServerError
    else Done
  }

  /** What `_assert_on_offer` decides about a requested start. */
  ghost function OfferOutcome(s: Tables, barber: Id, service: Id, start: int, now: int, leaving: Leaving): Outcome {
    if !HasShop(s, barber) then ServerError
    else
      var day := ZoneOf(s, barber).LocalDay(start);
      var refusal := Refusal(s, barber, service, day);
      if refusal != Done then refusal
      else if Offered(s, barber, service, day, now, leaving, start) then Done
      else if Offered(s, barber, service, day, now, Everybody, start) then SlotTaken
      else OutsideWorkingHours
  }

  // ---- requests ----

  /** The row a create request inserts. */
  function NewRow(s: Tables, customer: Id, barber: Id, service: Id, start: int, now: int): Appointment
    requires HasShop(s, barber) && service in s.services
  {
    Appointment(customer, barber, service, start, start + s.services[service].duration,
                if s.shops[s.barbers[barber].shop].requiresConfirmation then Pending else Confirmed,
                s.services[service].price, now)
  }

  ghost function Create(s: Tables, id: Id, customer: Id, barber: Id, service: Id, start: int, now: int): Reply {
    if Resolve(s, barber, service) != Done then Reply(s, Resolve(s, barber, service))
    else
      var offer := OfferOutcome(s, barber, service, start, now, Nobody);
      if offer != Done then Reply(s, offer)
      else CommitOrSlotTaken(s, id, NewRow(s, customer, barber, service, start, now))
  }

  /** `_load_for_action`. */
  function Load(s: Tables, id: Id, actor: Actor): Outcome {
    if id !in s.appointments then NotFound else if actor.Stranger? then Forbidden else Done
  }

  predicate PastCutoff(a: Appointment, now: int, actor: Actor) {
    !actor.Staff? && a.start - CHANGE_CUTOFF <= now
  }

  /** The guards of a cancel or a reschedule on the row they read. */
  function ChangeGuard(a: Appointment, actor: Actor, now: int): Outcome {
    if !a.status.Live() then InvalidTransition
    else if PastCutoff(a, now, actor) then CutoffPassed
    else Done
  }

  function ConfirmGuard(a: Appointment, actor: Actor): Outcome {
    if !actor.Staff? then Forbidden else if !a.status.Pending? then InvalidTransition else Done
  }

  function CloseOutGuard(a: Appointment, actor: Actor, now: int): Outcome {
    if !actor.Staff? then Forbidden
    else if !a.status.Live() then InvalidTransition
    else if now < a.start then InvalidTransition
    else Done
  }

  function Cancel(s: Tables, id: Id, actor: Actor, now: int): Reply {
    if Load(s, id, actor) != Done then Reply(s, Load(s, id, actor))
    else
      var a := s.appointments[id];
      if ChangeGuard(a, actor, now) != Done then Reply(s, ChangeGuard(a, actor, now))
      else Commit(s, id, a.(status := Cancelled))
  }

  /** The row moved to a new start; its length is the service's present duration. */
  function Moved(s: Tables, a: Appointment, start: int): Appointment
    requires a.service in s.services
  {
    a.(start := start, end := start + s.services[a.service].duration)
  }

  ghost function Reschedule(s: Tables, id: Id, start: int, actor: Actor, now: int): Reply {
    if Load(s, id, actor) != Done then Reply(s, Load(s, id, actor))
    else
      var a := s.appointments[id];
      if ChangeGuard(a, actor, now) != Done then Reply(s, ChangeGuard(a, actor, now))
      else if Resolve(s, a.barber, a.service) != Done then Reply(s, Resolve(s, a.barber, a.service))
      else
        var offer := OfferOutcome(s, a.barber, a.service, start, now, One(id));
        if offer != Done then Reply(s, offer) else CommitOrSlotTaken(s, id, Moved(s, a, start))
  }

  function Confirm(s: Tables, id: Id, actor: Actor): Reply {
    if Load(s, id, actor) != Done then Reply(s, Load(s, id, actor))
    else
      var a := s.appointments[id];
      if ConfirmGuard(a, actor) != Done then Reply(s, ConfirmGuard(a, actor))
      else Commit(s, id, a.(status := Confirmed))
  }

  /** Complete and no-show: `target` is one of those two. */
  function CloseOut(s: Tables, id: Id, target: Status, actor: Actor, now: int): Reply {
    if Load(s, id, actor) != Done then Reply(s, Load(s, id, actor))
    else
      var a := s.appointments[id];
      if CloseOutGuard(a, actor, now) != Done then Reply(s, CloseOutGuard(a, actor, now))
      else Commit(s, id, a.(status := target))
  }

  predicate Stale(a: Appointment, now: int) {
    a.status.Pending? && a.created < now - PENDING_LIFETIME
  }

  function Expire(s: Tables, now: int): Tables {
    s.(appointments := map a | a in s.appointments ::
        if Stale(s.appointments[a], now) then s.appointments[a].(status := Cancelled) else s.appointments[a])
  }

  predicate BookedDuring(s: Tables, barber: Id, time: Span) {
    exists a | a in s.appointments :: s.appointments[a].Holds(barber) && s.appointments[a].Time().Overlaps(time)
  }

  /** What `create_break` looks up before it writes. */
  function BreakGuard(s: Tables, k: Break, staff: bool): Outcome {
    if k.end <= k.start then Invalid
    else if k.barber !in s.barbers then NotFound
    else if !staff then Forbidden
    else if BookedDuring(s, k.barber, k.Time()) then Conflict
    else Done
  }

  /** Inserting the break: the primary key, the foreign key and `end_after_start`, and nothing about bookings. */
  function RecordBreak(s: Tables, id: Id, k: Break): Reply {
    if id in s.breaks || k.barber !in s.barbers || k.end <= k.start then Reply(s, ServerError)
    else Reply(s.(breaks := s.breaks[id := k]), Done)
  }

  function CreateBreak(s: Tables, id: Id, k: Break, staff: bool): Reply {
    if BreakGuard(s, k, staff) != Done then Reply(s, BreakGuard(s, k, staff)) else RecordBreak(s, id, k)
  }

  function DeleteBreak(s: Tables, id: Id, staff: bool): Reply {
    if id !in s.breaks || s.breaks[id].barber !in s.barbers then Reply(s, NotFound)
    else if !staff then Reply(s, Forbidden)
    else Reply(s.(breaks := s.breaks - {id}), Done)
  }

  function ClosedSpan(zone: Zone, c: Closure): Span {
    Span(zone.DayStart(c.first), zone.DayStart(c.last + 1))
  }

  predicate ShopBookedDuring(s: Tables, shop: Id, time: Span) {
    exists a | a in s.appointments ::
      var row := s.appointments[a];
      row.status.Live() && row.barber in s.barbers && s.barbers[row.barber].shop == shop && row.Time().Overlaps(time)
  }

  /** `get_shop_or_404`: an inactive shop is there only for those who manage it. */
  predicate ShopFound(s: Tables, shop: Id, staff: bool) {
    shop in s.shops && (s.shops[shop].active || staff)
  }

  /** What `create_closure` looks up before it writes. */
  function ClosureGuard(s: Tables, c: Closure, staff: bool): Outcome {
    if c.last < c.first then Invalid
    else if !ShopFound(s, c.shop, staff) then NotFound
    else if !staff then Forbidden
    else if ShopBookedDuring(s, c.shop, ClosedSpan(s.shops[c.shop].zone, c)) then Conflict
    else Done
  }

  predicate Recorded(s: Tables, c: Closure) {
    exists o | o in s.closures :: s.closures[o] == c
  }

  /** Inserting the closure: any constraint that refuses it is reported as a conflict. */
  function RecordClosure(s: Tables, id: Id, c: Closure): Reply {
    if id in s.closures || c.shop !in s.shops || c.last < c.first || Recorded(s, c) then Reply(s, Conflict)
    else Reply(s.(closures := s.closures[id := c]), Done)
  }

  function CreateClosure(s: Tables, id: Id, c: Closure, staff: bool): Reply {
    if ClosureGuard(s, c, staff) != Done then Reply(s, ClosureGuard(s, c, staff)) else RecordClosure(s, id, c)
  }

  function DeleteClosure(s: Tables, id: Id, staff: bool): Reply {
    if id !in s.closures || !ShopFound(s, s.closures[id].shop, staff) then Reply(s, NotFound)
    else if !staff then Reply(s, Forbidden)
    else Reply(s.(closures := s.closures - {id}), Done)
  }

  function HoursOfOthers(hours: seq<WorkingHours>, barber: Id): seq<WorkingHours> {
    if hours == [] then []
    else if hours[0].barber == barber then HoursOfOthers(hours[1..], barber)
    else [hours[0]] + HoursOfOthers(hours[1..], barber)
  }

  function HoursFor(barber: Id, week: seq<Shift>): seq<WorkingHours> {
    seq(|week|, i requires 0 <= i < |week| => WorkingHours(barber, week[i]))
  }

  ghost function ReplaceHours(s: Tables, barber: Id, week: seq<Shift>, staff: bool): Reply {
    if !ValidWeek(week) then Reply(s, Invalid)
    else if barber !in s.barbers then Reply(s, NotFound)
    else if !staff then Reply(s, Forbidden)
    else Reply(s.(hours := HoursOfOthers(s.hours, barber) + HoursFor(barber, week)), Done)
  }

  // ---- runs of whole requests ----

  datatype Request =
    | CreateRequest(id: Id, customer: Id, barber: Id, service: Id, start: int, now: int)
    | CancelRequest(id: Id, actor: Actor, now: int)
    | RescheduleRequest(id: Id, start: int, actor: Actor, now: int)
    | ConfirmRequest(id: Id, actor: Actor)
    | CloseOutRequest(id: Id, noShow: bool, actor: Actor, now: int)
    | ExpireTask(now: int)
    | CreateBreakRequest(id: Id, newBreak: Break, staff: bool)
    | DeleteBreakRequest(id: Id, staff: bool)
    | CreateClosureRequest(id: Id, closure: Closure, staff: bool)
    | DeleteClosureRequest(id: Id, staff: bool)
    | ReplaceHoursRequest(barber: Id, week: seq<Shift>, staff: bool)
      /** Any other change to barbers, services and shops. */
    | CatalogChange(barbers: map<Id, Barber>, services: map<Id, Service>, shops: map<Id, Shop>)

  ghost function Handle(s: Tables, r: Request): Reply {
    match r
    case CreateRequest(id, customer, barber, service, start, now) =>
      Create(s, id, customer, barber, service, start, now)
    case CancelRequest(id, actor, now) => Cancel(s, id, actor, now)
    case RescheduleRequest(id, start, actor, now) => Reschedule(s, id, start, actor, now)
    case ConfirmRequest(id, actor) => Confirm(s, id, actor)
    case CloseOutRequest(id, noShow, actor, now) => CloseOut(s, id, if noShow then NoShow else Completed, actor, now)
    case ExpireTask(now) => Reply(Expire(s, now), Done)
    case CreateBreakRequest(id, k, staff) => CreateBreak(s, id, k, staff)
    case DeleteBreakRequest(id, staff) => DeleteBreak(s, id, staff)
    case CreateClosureRequest(id, c, staff) => CreateClosure(s, id, c, staff)
    case DeleteClosureRequest(id, staff) => DeleteClosure(s, id, staff)
    case ReplaceHoursRequest(barber, week, staff) => ReplaceHours(s, barber, week, staff)
    case CatalogChange(barbers, services, shops) =>
      Reply(s.(barbers := barbers, services := services, shops := shops), Done)
  }

  /**
   * The ids of new bookings are fresh; a catalog change keeps the tables well formed and moves neither a barber to
   * another shop nor a shop to another time zone.
   */
  ghost predicate Legal(s: Tables, r: Request) {
    match r
    case CreateRequest(id, _, _, _, _, _) => id !in s.appointments
    case CatalogChange(barbers, services, shops) =>
      && WellFormed(Handle(s, r).tables)
      && (forall b | b in s.barbers :: b in barbers && barbers[b].shop == s.barbers[b].shop)
      && (forall h | h in s.shops :: h in shops && shops[h].zone == s.shops[h].zone)
    case _ => true
  }

  ghost function After(s: Tables, run: seq<Request>): Tables
    decreases |run|
  {
    if run == [] then s else Handle(After(s, run[..|run| - 1]), run[|run| - 1]).tables
  }

  ghost predicate LegalRun(s: Tables, run: seq<Request>) {
    forall k | 0 <= k < |run| :: Legal(After(s, run[..k]), run[k])
  }

  lemma LastStep(s: Tables, run: seq<Request>)
    requires run != [] && LegalRun(s, run)
    ensures LegalRun(s, run[..|run| - 1])
    ensures Legal(After(s, run[..|run| - 1]), run[|run| - 1])
  {
    var before := run[..|run| - 1];
    forall k | 0 <= k < |before| ensures Legal(After(s, before[..k]), before[k]) {
      assert before[..k] == run[..k];
      assert Legal(After(s, run[..k]), run[k]);
    }
  }
}
