/**
 * The ledger operations pages/bookkeeper.py imports from db.py: insert_transaction,
 * create_booking and get_available_booking_id. db.py defines only an insert_transaction
 * with other parameters (date, category, amount, notes) and neither of the other two,
 * so the three are modelled as the bookkeeper calls them: an append-only log of the
 * keyword arguments of each insert and a booking counter.
 */
module Db {
  import opened Wrappers
  import opened Frame

  /** The keyword arguments of one insert_transaction call. */
  datatype TransactionRecord = TransactionRecord(
    date: string,
    recipient: Cell,
    currency: Cell,
    amount: Cell,
    sourceCsv: Option<string>,
    bookingId: nat,
    excluded: Cell)

  predicate StrictlyIncreasing(s: seq<nat>)
  {
    forall i, j :: 0 <= i < j < |s| ==> s[i] < s[j]
  }

  class Ledger {
    /** Every insert_transaction call, in order. */
    var transactions: seq<TransactionRecord>
    /** The ids of the bookings created so far, in order. */
    var bookings: seq<nat>
    /** The id create_booking assigns next. */
    var nextBookingId: nat

    /** Booking ids are handed out in increasing order and never reused. */
    ghost predicate Valid()
      reads this
    {
      && StrictlyIncreasing(bookings)
      && forall i :: 0 <= i < |bookings| ==> bookings[i] < nextBookingId
    }

    constructor ()
      ensures Valid()
      ensures transactions == [] && bookings == [] && nextBookingId == 1
    {
      transactions, bookings, nextBookingId := [], [], 1;
    }

    /** get_available_booking_id: the id the next booking will get, above every id in use. */
    function AvailableBookingId(): (id: nat)
      reads this
      requires Valid()
      ensures forall i :: 0 <= i < |bookings| ==> bookings[i] < id
    {
      nextBookingId
    }

    /** insert_transaction: one more ledger row. */
    method InsertTransaction(rec: TransactionRecord)
      modifies this
      ensures transactions == old(transactions) + [rec]
      ensures bookings == old(bookings) && nextBookingId == old(nextBookingId)
    {
      transactions := transactions + [rec];
    }

    /** create_booking: records the booking with the available id and moves the counter past it. */
    method CreateBooking() returns (id: nat)
      requires Valid()
      modifies this
      ensures Valid()
      ensures id == old(nextBookingId) && bookings == old(bookings) + [id]
      ensures nextBookingId == id + 1
      ensures transactions == old(transactions)
    {
      id := nextBookingId;
      bookings := bookings + [id];
      nextBookingId := nextBookingId + 1;
    }
  }
}
