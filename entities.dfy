/** The two tables the services read and write, and the column selections of
    src/prisma/prisma-query.helper.ts that shape what callers receive.
    Timestamps are milliseconds since the epoch. */
module Entities {
  import opened Common
  import opened JsonValue

  datatype Order = Order(
    id: string,
    trackingNumber: string,
    senderName: string,
    recipientName: string,
    origin: string,
    destination: string,
    status: OrderStatus,
    userId: string,
    createdAt: int,
    updatedAt: int)

  datatype User = User(
    id: string,
    email: string,
    password: string,
    name: string,
    role: Role,
    createdAt: int,
    updatedAt: int)

  /** `ORDER_SELECT.standard`: every column but the owner. */
  datatype OrderView = OrderView(
    id: string,
    trackingNumber: string,
    senderName: string,
    recipientName: string,
    origin: string,
    destination: string,
    status: OrderStatus,
    createdAt: int,
    updatedAt: int)

  /** `ORDER_SELECT.withUser`: the standard columns and the owner's id. */
  datatype OrderWithUser = OrderWithUser(order: OrderView, userId: string)

  /** `USER_SELECT.standard`: no password, no updatedAt. */
  datatype UserView = UserView(id: string, email: string, name: string, role: Role, createdAt: int)

  /** `USER_SELECT.auth` plus the password hash, for login. */
  datatype UserAuth = UserAuth(id: string, email: string, name: string, role: Role, password: string)

  function StandardView(o: Order): (v: OrderView)
    ensures v.id == o.id && v.trackingNumber == o.trackingNumber && v.status == o.status
  {
    OrderView(o.id, o.trackingNumber, o.senderName, o.recipientName, o.origin, o.destination,
              o.status, o.createdAt, o.updatedAt)
  }

  function WithUserView(o: Order): (v: OrderWithUser)
    ensures v.order == StandardView(o) && v.userId == o.userId
  {
    OrderWithUser(StandardView(o), o.userId)
  }

  /** The standard view loses only the owner: orders that agree on it and on
      their owner are the same order. */
  lemma StandardViewFaithful(a: Order, b: Order)
    ensures StandardView(a) == StandardView(b) && a.userId == b.userId <==> a == b
    ensures WithUserView(a) == WithUserView(b) <==> a == b
  {
  }

  function UserStandardView(u: User): (v: UserView)
    ensures v.id == u.id && v.email == u.email && v.role == u.role
  {
    UserView(u.id, u.email, u.name, u.role, u.createdAt)
  }

  function UserAuthView(u: User): (v: UserAuth)
    ensures v.id == u.id && v.email == u.email && v.role == u.role && v.password == u.password
  {
    UserAuth(u.id, u.email, u.name, u.role, u.password)
  }

  function StatusText(s: OrderStatus): string
  {
    match s
    case PENDING => "PENDING"
    case IN_TRANSIT => "IN_TRANSIT"
    case DELIVERED => "DELIVERED"
    case CANCELED => "CANCELED"
  }

  function StatusOfText(t: string): Option<OrderStatus>
  {
    if t == "PENDING" then Some(PENDING)
    else if t == "IN_TRANSIT" then Some(IN_TRANSIT)
    else if t == "DELIVERED" then Some(DELIVERED)
    else if t == "CANCELED" then Some(CANCELED)
    else None
  }

  lemma StatusTextRoundTrip(s: OrderStatus)
    ensures StatusOfText(StatusText(s)) == Some(s)
  {
  }

  /** The standard view as the JSON the cache stores. */
  function ViewToJson(v: OrderView): (j: Json)
    ensures ViewFromJson(j) == Some(v)
  {
    StatusTextRoundTrip(v.status);
    JObj(map[
      "id" := JStr(v.id),
      "trackingNumber" := JStr(v.trackingNumber),
      "senderName" := JStr(v.senderName),
      "recipientName" := JStr(v.recipientName),
      "origin" := JStr(v.origin),
      "destination" := JStr(v.destination),
      "status" := JStr(StatusText(v.status)),
      "createdAt" := JNum(v.createdAt),
      "updatedAt" := JNum(v.updatedAt)])
  }

  predicate HasText(fields: map<string, Json>, name: string)
  {
    name in fields && fields[name].JStr?
  }

  predicate HasNumber(fields: map<string, Json>, name: string)
  {
    name in fields && fields[name].JNum?
  }

  /** Reads a standard view back from cached JSON, when it has that shape. */
  function ViewFromJson(j: Json): Option<OrderView>
  {
    if && j.JObj?
       && HasText(j.fields, "id") && HasText(j.fields, "trackingNumber")
       && HasText(j.fields, "senderName") && HasText(j.fields, "recipientName")
       && HasText(j.fields, "origin") && HasText(j.fields, "destination")
       && HasText(j.fields, "status") && StatusOfText(j.fields["status"].s).Some?
       && HasNumber(j.fields, "createdAt") && HasNumber(j.fields, "updatedAt")
    then Some(OrderView(
      j.fields["id"].s, j.fields["trackingNumber"].s, j.fields["senderName"].s,
      j.fields["recipientName"].s, j.fields["origin"].s, j.fields["destination"].s,
      StatusOfText(j.fields["status"].s).value, j.fields["createdAt"].n, j.fields["updatedAt"].n))
    else None
  }

  /** Distinct views are cached as distinct JSON. */
  lemma ViewToJsonInjective(a: OrderView, b: OrderView)
    ensures ViewToJson(a) == ViewToJson(b) ==> a == b
  {
  }
}
