/** The bookings endpoint (app/api/bookings/route.ts): an in-memory table
    from user id to that user's bookings, in the order they were made.
    `POST` checks the required fields and appends; `GET` looks a user up. */
module Bookings {
  import opened Text

  /** A booking as the handler builds it. `stadiumId` and `totalPrice` are
      copied from the request whether or not they were sent. */
  datatype Booking = Booking(
    id: string, userId: string, fieldId: string, stadiumId: Option<string>,
    bookingDate: string, startTime: string, endTime: string, status: string,
    totalPrice: Option<real>, paymentMethod: string, createdAt: string, updatedAt: string)

  /** The JSON body of a `POST`; an absent member is `None`. */
  datatype BookingRequest = BookingRequest(
    userId: Option<string>, fieldId: Option<string>, stadiumId: Option<string>,
    bookingDate: Option<string>, startTime: Option<string>, endTime: Option<string>,
    totalPrice: Option<real>)

  datatype PostResponse =
    | PostFailure(status: int, error: string)
    | PostSuccess(message: string, data: Booking)

  datatype GetResponse =
    | GetFailure(status: int, error: string)
    | GetSuccess(data: seq<Booking>, count: int)

  type Table = map<string, seq<Booking>>

  const MissingFields := "Missing required fields"
  const Created := "Booking created successfully"
  const UserIdRequired := "userId is required"

  /** None of `userId`, `fieldId`, `bookingDate`, `startTime`, `endTime` is
      absent or empty. */
  predicate HasRequiredFields(req: BookingRequest)
  {
    Truthy(req.userId) && Truthy(req.fieldId) && Truthy(req.bookingDate)
      && Truthy(req.startTime) && Truthy(req.endTime)
  }

  /** The booking built for a valid request at `Date.now() == now`, with the
      two `new Date().toISOString()` readings passed in. */
  function NewBooking(req: BookingRequest, now: nat, createdAt: string, updatedAt: string): (b: Booking)
    requires HasRequiredFields(req)
    ensures b.id == "booking-" + NatToDecimal(now)
    ensures Some(b.userId) == req.userId && Some(b.fieldId) == req.fieldId
    ensures Some(b.bookingDate) == req.bookingDate
    ensures Some(b.startTime) == req.startTime && Some(b.endTime) == req.endTime
    ensures b.stadiumId == req.stadiumId && b.totalPrice == req.totalPrice
    ensures b.status == "confirmed" && b.paymentMethod == "cash"
    ensures b.createdAt == createdAt && b.updatedAt == updatedAt
  {
    Booking("booking-" + NatToDecimal(now), req.userId.value, req.fieldId.value, req.stadiumId,
      req.bookingDate.value, req.startTime.value, req.endTime.value, "confirmed",
      req.totalPrice, "cash", createdAt, updatedAt)
  }

  /** `mockBookings[userId] || []` */
  function ListOf(table: Table, userId: string): seq<Booking>
  {
    if userId in table then table[userId] else []
  }

  /** The `POST` handler: its response and the table afterwards. */
  function Post(table: Table, req: BookingRequest, now: nat, createdAt: string, updatedAt: string): (out: (PostResponse, Table))
    ensures out.0.PostFailure? <==> !HasRequiredFields(req)
    ensures out.0.PostFailure? ==> out.0.status == 400 && out.1 == table
    ensures out.0.PostSuccess? ==>
      (var u := req.userId.value;
       out.0.data.userId == u && u in out.1 && out.1[u] == ListOf(table, u) + [out.0.data])
  {
    if !HasRequiredFields(req) then (PostFailure(400, MissingFields), table)
    else
      var b := NewBooking(req, now, createdAt, updatedAt);
      var u := req.userId.value;
      (PostSuccess(Created, b), table[u := ListOf(table, u) + [b]])
  }

  /** The `GET` handler. */
  function Get(table: Table, userId: Option<string>): (r: GetResponse)
    ensures r.GetSuccess? <==> Truthy(userId)
    ensures r.GetSuccess? ==> r.count == |r.data|
    ensures r.GetSuccess? && userId.value !in table ==> r.data == []
    ensures r.GetSuccess? && userId.value in table ==> r.data == table[userId.value]
  {
    if !Truthy(userId) then GetFailure(400, UserIdRequired)
    else
      var list := ListOf(table, userId.value);
      GetSuccess(list, |list|)
  }

  /** Every list in the table is non-empty and holds only bookings of the
      user it is filed under. */
  predicate Filed(table: Table)
  {
    forall u :: u in table ==> table[u] != [] && forall b :: b in table[u] ==> b.userId == u
  }

  /** `table'` extends `table`: no user disappears and every list only grew
      at its end. */
  predicate Extends(table: Table, table': Table)
  {
    forall u :: u in table ==> u in table' && table[u] <= table'[u]
  }

  /** A request lacking a required field is refused with 400 and changes
      nothing. */
  lemma MissingFieldRefused(table: Table, req: BookingRequest, now: nat, createdAt: string, updatedAt: string)
    requires !HasRequiredFields(req)
    ensures Post(table, req, now, createdAt, updatedAt) == (PostFailure(400, "Missing required fields"), table)
  {
  }

  /** A valid request appends exactly one confirmed cash booking at the end
      of its user's list (creating the list) and touches no other user. */
  lemma ValidRequestAppends(table: Table, req: BookingRequest, now: nat, createdAt: string, updatedAt: string)
    requires HasRequiredFields(req)
    ensures var (response, table') := Post(table, req, now, createdAt, updatedAt);
      var u := req.userId.value;
      response.PostSuccess? && response.data.status == "confirmed" && response.data.paymentMethod == "cash"
      && table'.Keys == table.Keys + {u}
      && table'[u] == ListOf(table, u) + [response.data]
      && forall v :: v in table && v != u ==> table'[v] == table[v]
  {
  }

  /** `POST` keeps every list filed under its own user and never shrinks
      the table. */
  lemma PostKeepsFiled(table: Table, req: BookingRequest, now: nat, createdAt: string, updatedAt: string)
    requires Filed(table)
    ensures Filed(Post(table, req, now, createdAt, updatedAt).1)
    ensures Extends(table, Post(table, req, now, createdAt, updatedAt).1)
  {
    var table' := Post(table, req, now, createdAt, updatedAt).1;
    if HasRequiredFields(req) {
      var u := req.userId.value;
      forall v | v in table
        ensures v in table' && table[v] <= table'[v]
      {
        if v == u {
          assert table'[v] == table[v] + [NewBooking(req, now, createdAt, updatedAt)];
        }
      }
    }
  }

  /** A `GET` after a successful `POST` sees the earlier list followed by
      the new booking, its count one larger. */
  lemma GetAfterPost(table: Table, req: BookingRequest, now: nat, createdAt: string, updatedAt: string)
    requires HasRequiredFields(req)
    ensures var (response, table') := Post(table, req, now, createdAt, updatedAt);
      var before := Get(table, req.userId);
      var after := Get(table', req.userId);
      after.GetSuccess? && after.data == before.data + [response.data] && after.count == before.count + 1
  {
  }

  /** A `GET` for another user is unaffected by a `POST`. */
  lemma GetOtherUnaffected(table: Table, req: BookingRequest, now: nat, createdAt: string, updatedAt: string, userId: Option<string>)
    requires userId != req.userId
    ensures Get(Post(table, req, now, createdAt, updatedAt).1, userId) == Get(table, userId)
  {
  }

  /** The module-level `mockBookings` object. */
  class BookingTable {
    var bookings: Table

    constructor ()
      ensures bookings == map[]
    {
      bookings := map[];
    }

    /** `POST /api/bookings` at `Date.now() == now`. */
    method Create(req: BookingRequest, now: nat, createdAt: string, updatedAt: string) returns (response: PostResponse)
      modifies this
      ensures (response, bookings) == Post(old(bookings), req, now, createdAt, updatedAt)
      ensures Filed(old(bookings)) ==> Filed(bookings)
    {
      if !Truthy(req.userId) || !Truthy(req.fieldId) || !Truthy(req.bookingDate)
        || !Truthy(req.startTime) || !Truthy(req.endTime)
      {
        response := PostFailure(400, MissingFields);
        assert !HasRequiredFields(req);
        assert Post(old(bookings), req, now, createdAt, updatedAt) == (response, bookings);
        return;
      }
      var bookingId := "booking-" + NatToDecimal(now);
      var booking := Booking(bookingId, req.userId.value, req.fieldId.value, req.stadiumId,
        req.bookingDate.value, req.startTime.value, req.endTime.value, "confirmed",
        req.totalPrice, "cash", createdAt, updatedAt);
      var u := req.userId.value;
      if u !in bookings {
        bookings := bookings[u := []];
      }
      assert bookings[u] == ListOf(old(bookings), u);
      bookings := bookings[u := bookings[u] + [booking]];
      response := PostSuccess(Created, booking);
      assert booking == NewBooking(req, now, createdAt, updatedAt);
      assert HasRequiredFields(req);
      assert Post(old(bookings), req, now, createdAt, updatedAt).1 == bookings;
      assert Post(old(bookings), req, now, createdAt, updatedAt).0 == response;
      if Filed(old(bookings)) {
        PostKeepsFiled(old(bookings), req, now, createdAt, updatedAt);
      }
    }

    /** `GET /api/bookings?userId=…`; changes nothing. */
    method List(userId: Option<string>) returns (response: GetResponse)
      ensures response.GetFailure? <==> !Truthy(userId)
      ensures response.GetFailure? ==> response == GetFailure(400, "userId is required")
      ensures response.GetSuccess? ==>
        response.data == (if userId.value in bookings then bookings[userId.value] else [])
        && response.count == |response.data|
      ensures response == Get(bookings, userId)
    {
      if !Truthy(userId) {
        return GetFailure(400, UserIdRequired);
      }
      var userBookings := if userId.value in bookings then bookings[userId.value] else [];
      response := GetSuccess(userBookings, |userBookings|);
    }
  }
}
