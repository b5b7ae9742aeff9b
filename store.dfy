/** The relational store behind PrismaService: the `Order` and `User`
    tables keyed by id, each with the unique index the services rely on
    (an order's tracking number, a user's email). */
module Store {
  import opened Common
  import opened Entities

  class Database {
    var orders: map<string, Order>
    var trackingIndex: map<string, string>
    var users: map<string, User>
    var emailIndex: map<string, string>

    /** Rows are stored under their own id, and each index maps a value to
        the one row that holds it. */
    ghost predicate Valid()
      reads this
    {
      && (forall id :: id in orders ==> orders[id].id == id)
      && (forall id :: id in orders ==> orders[id].trackingNumber in trackingIndex && trackingIndex[orders[id].trackingNumber] == id)
      && (forall tn :: tn in trackingIndex ==> trackingIndex[tn] in orders && orders[trackingIndex[tn]].trackingNumber == tn)
      && (forall id :: id in users ==> users[id].id == id)
      && (forall id :: id in users ==> users[id].email in emailIndex && emailIndex[users[id].email] == id)
      && (forall e :: e in emailIndex ==> emailIndex[e] in users && users[emailIndex[e]].email == e)
    }

    /** Inserts an order under its id; the unique index takes its tracking
        number. */
    method InsertOrder(o: Order)
      requires Valid() && o.id !in orders && o.trackingNumber !in trackingIndex
      modifies this
      ensures Valid()
      ensures orders == old(orders)[o.id := o] && trackingIndex == old(trackingIndex)[o.trackingNumber := o.id]
      ensures users == old(users) && emailIndex == old(emailIndex)
    {
      orders := orders[o.id := o];
      trackingIndex := trackingIndex[o.trackingNumber := o.id];
    }

    /** Replaces a stored order by a new version with the same id and
        tracking number; the index is untouched. */
    method ReplaceOrder(o: Order)
      requires Valid() && o.id in orders && o.trackingNumber == orders[o.id].trackingNumber
      modifies this
      ensures Valid()
      ensures orders == old(orders)[o.id := o]
      ensures trackingIndex == old(trackingIndex) && users == old(users) && emailIndex == old(emailIndex)
    {
      orders := orders[o.id := o];
    }
  }

  /** `findUnique({ where: { trackingNumber } })` through the index. */
  function OrderWithTracking(orders: map<string, Order>, index: map<string, string>, tn: string): (r: Option<Order>)
    ensures r.Some? ==> tn in index && index[tn] in orders && r.value == orders[index[tn]]
    ensures r.None? <==> tn !in index || index[tn] !in orders
  {
    if tn in index && index[tn] in orders then Some(orders[index[tn]]) else None
  }

  /** Under the store's invariant the index lookup finds exactly the order
      that carries the tracking number. */
  lemma OrderWithTrackingExact(db: Database, tn: string)
    requires db.Valid()
    ensures OrderWithTracking(db.orders, db.trackingIndex, tn).Some? <==>
              exists id :: id in db.orders && db.orders[id].trackingNumber == tn
    ensures forall id :: id in db.orders && db.orders[id].trackingNumber == tn ==>
              OrderWithTracking(db.orders, db.trackingIndex, tn) == Some(db.orders[id])
  {
    if tn in db.trackingIndex {
      var id := db.trackingIndex[tn];
      assert id in db.orders && db.orders[id].trackingNumber == tn;
    }
  }

  /** `findUnique({ where: { email } })` through the index. */
  function UserWithEmail(users: map<string, User>, index: map<string, string>, email: string): (r: Option<User>)
    ensures r.Some? ==> email in index && index[email] in users && r.value == users[index[email]]
    ensures r.None? <==> email !in index || index[email] !in users
  {
    if email in index && index[email] in users then Some(users[index[email]]) else None
  }

  lemma UserWithEmailExact(db: Database, email: string)
    requires db.Valid()
    ensures UserWithEmail(db.users, db.emailIndex, email).Some? <==>
              exists id :: id in db.users && db.users[id].email == email
    ensures forall id :: id in db.users && db.users[id].email == email ==>
              UserWithEmail(db.users, db.emailIndex, email) == Some(db.users[id])
  {
    if email in db.emailIndex {
      var id := db.emailIndex[email];
      assert id in db.users && db.users[id].email == email;
    }
  }
}
