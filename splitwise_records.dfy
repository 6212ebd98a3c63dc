/** The parts of a Splitwise `get_expenses` record that the app reads.
    Amounts are integer cents: the upstream JSON carries them as decimal
    strings, and only whether such a string reads as a number, and which
    number, matters to the rules modelled here. */
module SplitwiseRecords {

  /** An `owed_share` field: absent (or `null`), a numeric string (its value
      in cents), or a string `parseFloat`/`float` cannot read. */
  datatype OwedShare = Absent | Num(cents: int) | NotNumber

  /** One entry of a record's `users` list. Splitwise user ids are numbers. */
  datatype Share = Share(userId: int, owed: OwedShare)

  /** A record's `deleted_at` field: `null`, not present at all, or a timestamp. */
  datatype DeletedAt = DeletedNull | DeletedMissing | DeletedOn(stamp: string)

  datatype Record = Record(
    id: int,
    payment: bool,        // truthiness of the `payment` field
    deletedAt: DeletedAt,
    users: seq<Share>,
    description: string,
    date: string)

  /** The owed share is a number strictly above zero. */
  predicate Owes(s: Share) {
    s.owed.Num? && s.owed.cents > 0
  }

  /** Index of the first share whose user id is `uid`, or `|users|`. */
  function FirstMatch(users: seq<Share>, uid: int): (k: nat)
    ensures k <= |users|
    ensures k < |users| ==> users[k].userId == uid
    ensures forall j :: 0 <= j < k ==> users[j].userId != uid
  {
    if users == [] then 0
    else if users[0].userId == uid then 0
    else 1 + FirstMatch(users[1..], uid)
  }
}
