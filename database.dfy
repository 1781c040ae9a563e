/** The relational store behind the Prisma client: one field per table, holding its rows in
    table order, and one autoincrement counter per table with a numeric key. Each route
    handler is a method that changes the fields its `modifies` clause names. */
module Database {

  import opened Schema

  class Db {
    var stock: seq<StockRow>
    var requests: seq<BloodRequest>
    var recipients: seq<Recipient>
    var donors: seq<Donor>
    var appointments: seq<Appointment>
    var tokens: seq<VerificationToken>
    var users: seq<AdminUser>

    var nextStockId: int
    var nextRequestId: int
    var nextRecipientId: int
    var nextDonorId: int
    var nextAppointmentId: int
    var nextUserId: int

    /** The constraints of the schema: keys, unique columns and the appointment foreign key. */
    ghost predicate Valid()
      reads this
    {
      && 1 <= nextStockId && StockValid(stock, nextStockId)
      && 1 <= nextRequestId && RequestsValid(requests, nextRequestId)
      && 1 <= nextRecipientId && RecipientsValid(recipients, nextRecipientId)
      && 1 <= nextDonorId && DonorsValid(donors, nextDonorId)
      && 1 <= nextAppointmentId && AppointmentsValid(appointments, nextAppointmentId, donors)
      && TokensValid(tokens)
      && 1 <= nextUserId && UsersValid(users, nextUserId)
    }

    /** An empty database, as after the migrations and before seeding. */
    constructor ()
      ensures Valid()
      ensures stock == [] && requests == [] && recipients == [] && donors == []
      ensures appointments == [] && tokens == [] && users == []
    {
      stock, requests, recipients, donors := [], [], [], [];
      appointments, tokens, users := [], [], [];
      nextStockId, nextRequestId, nextRecipientId := 1, 1, 1;
      nextDonorId, nextAppointmentId, nextUserId := 1, 1, 1;
    }

    /** `blood_stock.create` of a row keyed by the counter for a group with no row yet. */
    method InsertStock(row: StockRow)
      requires Valid() && row.stockId == nextStockId
      requires forall i :: 0 <= i < |stock| ==> stock[i].bloodGroup != row.bloodGroup
      modifies this`stock, this`nextStockId
      ensures Valid() && stock == old(stock) + [row] && nextStockId == old(nextStockId) + 1
    {
      AppendBelow(stock, row, StockIdOf, nextStockId);
      CounterIsFresh(stock, StockIdOf, nextStockId);
      AppendDistinct(stock, row, StockIdOf);
      AppendDistinct(stock, row, StockGroupOf);
      stock, nextStockId := stock + [row], nextStockId + 1;
    }

    /** `blood_stock.update` of the row at k, keeping its id and its group. */
    method OverwriteStock(k: nat, row: StockRow)
      requires Valid() && k < |stock|
      requires row.stockId == stock[k].stockId && row.bloodGroup == stock[k].bloodGroup
      modifies this`stock
      ensures Valid() && stock == old(stock)[k := row]
    {
      UpdateKeepsKeys(stock, k, row, StockIdOf);
      UpdateKeepsKeys(stock, k, row, StockGroupOf);
      stock := stock[k := row];
    }

    /** `donor.create` of a row keyed by the counter, sharing no phone and no email. */
    method InsertDonor(row: Donor)
      requires Valid() && row.id == nextDonorId
      requires forall i :: 0 <= i < |donors| ==> donors[i].phone != row.phone && donors[i].email != row.email
      modifies this`donors, this`nextDonorId
      ensures Valid() && donors == old(donors) + [row] && nextDonorId == old(nextDonorId) + 1
    {
      AppendBelow(donors, row, DonorIdOf, nextDonorId);
      CounterIsFresh(donors, DonorIdOf, nextDonorId);
      AppendDistinct(donors, row, DonorIdOf);
      AppendDistinct(donors, row, DonorPhoneOf);
      AppendDistinct(donors, row, DonorEmailOf);
      AppendDonorKeepsAppointments(appointments, nextAppointmentId, donors, row);
      donors, nextDonorId := donors + [row], nextDonorId + 1;
    }
  }
}
