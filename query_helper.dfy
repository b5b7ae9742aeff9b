/** The where-clause builders of src/prisma/prisma-query.helper.ts, and the
    meaning Prisma gives the clauses they build: every present field is one
    more condition an order must meet. A string parameter counts only when
    it is non-empty, as JavaScript truthiness has it. */
module PrismaQuery {
  import opened Common
  import opened Entities
  import Strings

  /** `containsInsensitive(value)`: `{ contains: value, mode: 'insensitive' }`. */
  datatype ContainsFilter = ContainsInsensitive(contains: string)

  /** A `createdAt` range with optional lower and upper bounds. */
  datatype DateRange = DateRange(gte: Option<int>, lte: Option<int>)

  predicate Truthy(s: Option<string>)
  {
    s.Some? && s.value != ""
  }

  /** Case-insensitive substring test, on ASCII letters. */
  predicate ContainsFold(hay: string, needle: string)
  {
    Strings.Contains(Strings.ToLower(hay), Strings.ToLower(needle))
  }

  predicate SatisfiesContains(value: string, f: Option<ContainsFilter>)
  {
    f.None? || ContainsFold(value, f.value.contains)
  }

  predicate InRange(t: int, r: Option<DateRange>)
  {
    r.None? || ((r.value.gte.None? || r.value.gte.value <= t) && (r.value.lte.None? || t <= r.value.lte.value))
  }

  /** `buildCreatedAtRange`: no clause without either bound; otherwise a
      range with the bounds given. Every Date is truthy, even the epoch. */
  function BuildCreatedAtRange(dateFrom: Option<int>, dateTo: Option<int>): (r: Option<DateRange>)
    ensures r.None? <==> dateFrom.None? && dateTo.None?
    ensures forall t :: InRange(t, r) <==> (dateFrom.None? || dateFrom.value <= t) && (dateTo.None? || t <= dateTo.value)
  {
    if dateFrom.None? && dateTo.None? then None
    else Some(DateRange(dateFrom, dateTo))
  }

  datatype OrderWhereParams = OrderWhereParams(
    userId: Option<string>,
    isAdmin: Option<bool>,
    status: Option<OrderStatus>,
    senderName: Option<string>,
    recipientName: Option<string>,
    trackingNumber: Option<string>,
    dateFrom: Option<int>,
    dateTo: Option<int>)

  datatype OrderWhere = OrderWhere(
    userId: Option<string>,
    status: Option<OrderStatus>,
    senderName: Option<ContainsFilter>,
    recipientName: Option<ContainsFilter>,
    trackingNumber: Option<ContainsFilter>,
    createdAt: Option<DateRange>)

  /** The clause with no condition. */
  const EmptyOrderWhere := OrderWhere(None, None, None, None, None, None)

  function ContainsIfTruthy(s: Option<string>): (r: Option<ContainsFilter>)
    ensures r.Some? <==> Truthy(s)
    ensures r.Some? ==> r.value.contains == s.value
  {
    if Truthy(s) then Some(ContainsInsensitive(s.value)) else None
  }

  /** `buildOrderWhereClause`. */
  function BuildOrderWhereClause(p: OrderWhereParams): (w: OrderWhere)
    ensures w.userId.Some? <==> p.isAdmin != Some(true) && Truthy(p.userId)
    ensures w.userId.Some? ==> w.userId == p.userId
    ensures w.status == p.status
    ensures w.senderName.Some? <==> Truthy(p.senderName)
    ensures w.recipientName.Some? <==> Truthy(p.recipientName)
    ensures w.trackingNumber.Some? <==> Truthy(p.trackingNumber)
    ensures w.createdAt.None? <==> p.dateFrom.None? && p.dateTo.None?
  {
    OrderWhere(
      if p.isAdmin != Some(true) && Truthy(p.userId) then p.userId else None,
      p.status,
      ContainsIfTruthy(p.senderName),
      ContainsIfTruthy(p.recipientName),
      ContainsIfTruthy(p.trackingNumber),
      BuildCreatedAtRange(p.dateFrom, p.dateTo))
  }

  /** How Prisma evaluates an order clause against a row. */
  predicate Matches(o: Order, w: OrderWhere)
  {
    && (w.userId.None? || o.userId == w.userId.value)
    && (w.status.None? || o.status == w.status.value)
    && SatisfiesContains(o.senderName, w.senderName)
    && SatisfiesContains(o.recipientName, w.recipientName)
    && SatisfiesContains(o.trackingNumber, w.trackingNumber)
    && InRange(o.createdAt, w.createdAt)
  }

  /** The filter the parameters describe, stated directly on a row. */
  predicate Selected(o: Order, p: OrderWhereParams)
  {
    && (p.isAdmin == Some(true) || !Truthy(p.userId) || o.userId == p.userId.value)
    && (p.status.None? || o.status == p.status.value)
    && (!Truthy(p.senderName) || ContainsFold(o.senderName, p.senderName.value))
    && (!Truthy(p.recipientName) || ContainsFold(o.recipientName, p.recipientName.value))
    && (!Truthy(p.trackingNumber) || ContainsFold(o.trackingNumber, p.trackingNumber.value))
    && (p.dateFrom.None? || p.dateFrom.value <= o.createdAt)
    && (p.dateTo.None? || o.createdAt <= p.dateTo.value)
  }

  /** The built clause selects exactly the rows the parameters describe. */
  lemma BuildOrderWhereClauseSound(p: OrderWhereParams, o: Order)
    ensures Matches(o, BuildOrderWhereClause(p)) <==> Selected(o, p)
  {
  }

  /** A caller who is not an admin and names themselves sees only their own
      orders; an admin's own id is ignored. */
  lemma NonAdminSeesOnlyOwnOrders(p: OrderWhereParams, o: Order)
    requires p.isAdmin != Some(true) && Truthy(p.userId)
    requires Matches(o, BuildOrderWhereClause(p))
    ensures o.userId == p.userId.value
  {
  }

  lemma AdminIgnoresUserId(p: OrderWhereParams)
    requires p.isAdmin == Some(true)
    ensures BuildOrderWhereClause(p) == BuildOrderWhereClause(p.(userId := None))
  {
  }

  /** No parameter, an empty string, or an admin with no other filter: the
      clause has no condition and every row matches. */
  lemma UnfilteredMatchesAll(p: OrderWhereParams, o: Order)
    requires p.isAdmin == Some(true) || !Truthy(p.userId)
    requires p.status.None? && !Truthy(p.senderName) && !Truthy(p.recipientName) && !Truthy(p.trackingNumber)
    requires p.dateFrom.None? && p.dateTo.None?
    ensures BuildOrderWhereClause(p) == EmptyOrderWhere
    ensures Matches(o, BuildOrderWhereClause(p))
  {
  }

  /** The search is case-insensitive: a needle matches the stored text however
      either is capitalised. */
  lemma {:induction false} ContainsFoldIgnoresCase(hay: string, needle: string)
    ensures ContainsFold(Strings.ToUpper(hay), needle) <==> ContainsFold(hay, needle)
    ensures ContainsFold(hay, Strings.ToUpper(needle)) <==> ContainsFold(hay, needle)
  {
    LowerOfUpper(hay);
    LowerOfUpper(needle);
  }

  lemma LowerOfUpper(s: string)
    ensures Strings.ToLower(Strings.ToUpper(s)) == Strings.ToLower(s)
  {
    var a := Strings.ToLower(Strings.ToUpper(s));
    var b := Strings.ToLower(s);
    assert |a| == |b|;
    forall i | 0 <= i < |s|
      ensures a[i] == b[i]
    {
      assert Strings.ToUpper(s)[i] == Strings.UpperChar(s[i]);
    }
  }

  datatype UserWhereParams = UserWhereParams(email: Option<string>, name: Option<string>, role: Option<Role>)

  datatype UserWhere = UserWhere(email: Option<ContainsFilter>, name: Option<ContainsFilter>, role: Option<Role>)

  /** `buildUserWhereClause`. */
  function BuildUserWhereClause(p: UserWhereParams): (w: UserWhere)
    ensures w.email.Some? <==> Truthy(p.email)
    ensures w.name.Some? <==> Truthy(p.name)
    ensures w.role == p.role
  {
    UserWhere(ContainsIfTruthy(p.email), ContainsIfTruthy(p.name), p.role)
  }

  predicate UserMatches(u: User, w: UserWhere)
  {
    SatisfiesContains(u.email, w.email) && SatisfiesContains(u.name, w.name) && (w.role.None? || u.role == w.role.value)
  }

  lemma BuildUserWhereClauseSound(p: UserWhereParams, u: User)
    ensures UserMatches(u, BuildUserWhereClause(p)) <==>
      && (!Truthy(p.email) || ContainsFold(u.email, p.email.value))
      && (!Truthy(p.name) || ContainsFold(u.name, p.name.value))
      && (p.role.None? || u.role == p.role.value)
  {
  }
}
