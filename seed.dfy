/** The database seed (prisma/seed.js): an administrator account, a stock row for each of the
    eight blood groups, sample donors and recipients, and one sample request. Every step looks
    before it writes, so running the seed again adds nothing. */
module Seed {

  import opened Wrappers
  import opened Query
  import opened Schema
  import opened Database
  import DonorsRoute
  import StockRoute
  import RecipientRoute
  import RequestsRoute

  const BloodGroups := ["A+", "A-", "B+", "B-", "AB+", "AB-", "O+", "O-"]

  /** `STOCK_LEVELS`, the units each group is seeded with. */
  function Level(g: string): nat
  {
    if g == "O+" then 24 else if g == "O-" then 5 else if g == "B+" then 20
    else if g == "B-" then 4 else if g == "A+" then 18 else if g == "A-" then 3
    else if g == "AB+" then 8 else if g == "AB-" then 2 else 0
  }

  lemma GroupsDistinct()
    ensures forall i, j :: 0 <= i < j < |BloodGroups| ==> BloodGroups[i] != BloodGroups[j]
  {
  }

  const DefaultAdminEmail := "admin@bloodbank.com"

  function HasEmail(email: string): AdminUser -> bool
  {
    (u: AdminUser) => u.email == email
  }

  /** Step 1: the administrator, created only if no user has the address. `passwordHash` is the
      hash of ADMIN_PASSWORD (or of the default password). */
  method SeedAdmin(db: Db, adminEmail: Option<string>, passwordHash: string)
    requires db.Valid()
    modifies db`users, db`nextUserId
    ensures db.Valid()
    ensures var email := OrElse(adminEmail, DefaultAdminEmail);
            if FindFirst(old(db.users), HasEmail(email)).Some? then
              db.users == old(db.users) && db.nextUserId == old(db.nextUserId)
            else
              db.users == old(db.users) + [AdminUser(old(db.nextUserId), "Admin User", email,
                                                     "1234567890", Some(passwordHash))] &&
              db.nextUserId == old(db.nextUserId) + 1
    ensures FindFirst(db.users, HasEmail(OrElse(adminEmail, DefaultAdminEmail))).Some?
  {
    var email := OrElse(adminEmail, DefaultAdminEmail);
    var user := FindFirst(db.users, HasEmail(email));
    if user.None? {
      var row := AdminUser(db.nextUserId, "Admin User", email, "1234567890", Some(passwordHash));
      AppendBelow(db.users, row, UserIdOf, db.nextUserId);
      CounterIsFresh(db.users, UserIdOf, db.nextUserId);
      AppendDistinct(db.users, row, UserIdOf);
      db.users, db.nextUserId := db.users + [row], db.nextUserId + 1;
      assert HasEmail(email)(db.users[|db.users| - 1]);
    }
  }

  /** A quantity the seed refills: 0 or NULL. */
  predicate Unstocked(q: Option<int>)
  {
    q.None? || q == Some(0)
  }

  /** An existing row after the seed has handled the groups `gs`. */
  function Reseeded(row: StockRow, gs: seq<string>): (r: StockRow)
    ensures r.stockId == row.stockId && r.bloodGroup == row.bloodGroup
  {
    if row.bloodGroup in gs && Unstocked(row.quantity)
    then row.(quantity := Some(Level(row.bloodGroup))) else row
  }

  predicate HasRow(stock: seq<StockRow>, g: string)
  {
    exists k :: 0 <= k < |stock| && stock[k].bloodGroup == g
  }

  /** Where the stock loop stands once the groups `done` are handled, against the rows
      `before` it started from. */
  ghost predicate Progress(stock: seq<StockRow>, before: seq<StockRow>, done: seq<string>)
  {
    && |stock| >= |before|
    && (forall k :: 0 <= k < |before| ==> stock[k] == Reseeded(before[k], done))
    // A row is added only for a group that had none.
    && (forall k :: |before| <= k < |stock| ==>
          && stock[k].bloodGroup in done && stock[k].quantity == Some(Level(stock[k].bloodGroup))
          && !HasRow(before, stock[k].bloodGroup))
    && (forall h :: h in done ==> HasRow(stock, h))
  }

  /** Every group has a row, and none of them is 0 or NULL: what the seed leaves behind. */
  ghost predicate Stocked(stock: seq<StockRow>)
  {
    && (forall g :: g in BloodGroups ==> HasRow(stock, g))
    && (forall k :: 0 <= k < |stock| && stock[k].bloodGroup in BloodGroups ==> !Unstocked(stock[k].quantity))
  }

  /** Step 2: a row for each group; an existing row is refilled only when it is 0 or NULL. */
  method SeedStock(db: Db)
    requires db.Valid()
    modifies db`stock, db`nextStockId
    ensures db.Valid()
    ensures |db.stock| >= |old(db.stock)|
    // Rows that were there keep their place; only the empty ones of the eight groups are refilled.
    ensures forall k :: 0 <= k < |old(db.stock)| ==> db.stock[k] == Reseeded(old(db.stock)[k], BloodGroups)
    // Added rows are for groups that had none, at their seed level.
    ensures forall k :: |old(db.stock)| <= k < |db.stock| ==>
              db.stock[k].bloodGroup in BloodGroups &&
              db.stock[k].quantity == Some(Level(db.stock[k].bloodGroup))
    ensures Stocked(db.stock)
    // On a stocked table the step changes nothing.
    ensures Stocked(old(db.stock)) ==> db.stock == old(db.stock)
  {
    GroupsDistinct();
    var i := 0;
    assert Progress(db.stock, old(db.stock), BloodGroups[..0]);
    while i < |BloodGroups|
      invariant 0 <= i <= |BloodGroups|
      invariant db.Valid()
      invariant Progress(db.stock, old(db.stock), BloodGroups[..i])
    {
      assert BloodGroups[..i + 1] == BloodGroups[..i] + [BloodGroups[i]];
      var existing := FindFirst(db.stock, StockRoute.HasGroup(BloodGroups[i]));
      if existing.None? {
        AddGroup(db, BloodGroups[i], BloodGroups[..i], old(db.stock));
      } else {
        RefillGroup(db, existing.value, BloodGroups[..i], old(db.stock));
      }
      i := i + 1;
    }
    assert BloodGroups[..i] == BloodGroups;
    Finished(db.stock, old(db.stock));
  }

  /** Once every group is handled, the table is stocked; added rows are at their seed level,
      and a table that was stocked before is unchanged. */
  lemma Finished(stock: seq<StockRow>, before: seq<StockRow>)
    requires Progress(stock, before, BloodGroups)
    ensures |stock| >= |before|
    ensures forall k :: 0 <= k < |before| ==> stock[k] == Reseeded(before[k], BloodGroups)
    ensures forall k :: |before| <= k < |stock| ==>
              stock[k].bloodGroup in BloodGroups && stock[k].quantity == Some(Level(stock[k].bloodGroup))
    ensures Stocked(stock)
    ensures Stocked(before) ==> stock == before
  {
    NoneAdded(stock, before);
    forall k | 0 <= k < |stock| && stock[k].bloodGroup in BloodGroups
      ensures !Unstocked(stock[k].quantity)
    {
      if k < |before| {
        assert stock[k] == Reseeded(before[k], BloodGroups);
      }
    }
    if Stocked(before) {
      assert |stock| == |before|;
      forall k | 0 <= k < |before|
        ensures stock[k] == before[k]
      {
        assert stock[k] == Reseeded(before[k], BloodGroups);
      }
    }
  }

  /** Rows are added only for groups without one, so a table with every group gains none. */
  lemma NoneAdded(stock: seq<StockRow>, before: seq<StockRow>)
    requires |stock| >= |before|
    requires forall k :: |before| <= k < |stock| ==>
               stock[k].bloodGroup in BloodGroups && !HasRow(before, stock[k].bloodGroup)
    ensures (forall g :: g in BloodGroups ==> HasRow(before, g)) ==> |stock| == |before|
  {
    if |stock| > |before| {
      var g := stock[|before|].bloodGroup;
      assert g in BloodGroups && !HasRow(before, g);
    }
  }

  /** `blood_stock.create` for a group with no row. */
  method AddGroup(db: Db, g: string, done: seq<string>, ghost before: seq<StockRow>)
    requires db.Valid() && g !in done && Progress(db.stock, before, done)
    requires FindFirst(db.stock, StockRoute.HasGroup(g)).None?
    modifies db`stock, db`nextStockId
    ensures db.Valid() && Progress(db.stock, before, done + [g])
  {
    var row := StockRow(db.nextStockId, g, Some(Level(g)));
    assert forall k :: 0 <= k < |db.stock| ==> !StockRoute.HasGroup(g)(db.stock[k]);
    forall k | 0 <= k < |before|
      ensures Reseeded(before[k], done + [g]) == Reseeded(before[k], done)
      ensures before[k].bloodGroup != g
    {
      assert db.stock[k].bloodGroup == before[k].bloodGroup;
      assert !StockRoute.HasGroup(g)(db.stock[k]);
    }
    forall h | h in done
      ensures HasRow(db.stock + [row], h)
    {
      var w :| 0 <= w < |db.stock| && db.stock[w].bloodGroup == h;
      assert (db.stock + [row])[w] == db.stock[w];
    }
    db.InsertStock(row);
    assert db.stock[|db.stock| - 1].bloodGroup == g;
  }

  /** The `existing` branch for the group's row at k: refilled only when 0 or NULL. */
  method RefillGroup(db: Db, k: nat, done: seq<string>, ghost before: seq<StockRow>)
    requires db.Valid() && k < |db.stock| && db.stock[k].bloodGroup !in done
    requires Progress(db.stock, before, done)
    modifies db`stock
    ensures db.Valid() && Progress(db.stock, before, done + [old(db.stock)[k].bloodGroup])
  {
    var g := db.stock[k].bloodGroup;
    assert k < |before|;
    forall j | 0 <= j < |before| && j != k
      ensures Reseeded(before[j], done + [g]) == Reseeded(before[j], done)
    {
      assert db.stock[j].bloodGroup == before[j].bloodGroup;
      assert StockGroupOf(db.stock[j]) != StockGroupOf(db.stock[k]);
    }
    if Unstocked(db.stock[k].quantity) {
      var row := db.stock[k].(quantity := Some(Level(g)));
      forall h | h in done
        ensures HasRow(db.stock[k := row], h)
      {
        var w :| 0 <= w < |db.stock| && db.stock[w].bloodGroup == h;
        assert db.stock[k := row][w].bloodGroup == h;
      }
      db.OverwriteStock(k, row);
    }
    assert db.stock[k].bloodGroup == g;
  }

  /** A sample donor of `INDIAN_DONORS`: the columns the handlers know of. */
  datatype DonorSeed = DonorSeed(
    name: string, age: int, sex: string, phone: string, bloodGroup: string, weight: int,
    email: string, address: string, haemoglobin: string, sugar: string, pressure: string,
    diseases: string)

  const SampleDonors := [
    DonorSeed("Rajan Kumar", 28, "Male", "9841234501", "O+", 72, "rajan.kumar@gmail.com", "Anna Nagar, Chennai", "normal", "normal", "normal", "None"),
    DonorSeed("Priya Lakshmi", 25, "Female", "9876543201", "A+", 55, "priya.lakshmi@gmail.com", "Adyar, Chennai", "normal", "normal", "normal", "None"),
    DonorSeed("Mohammed Irfan", 32, "Male", "9845678902", "B+", 78, "irfan.m@outlook.com", "Koramangala, Bengaluru", "normal", "normal", "normal", "None"),
    DonorSeed("Deepa Nair", 29, "Female", "9123456703", "AB+", 58, "deepa.nair@yahoo.com", "Ernakulam, Kochi", "normal", "normal", "normal", "None"),
    DonorSeed("Suresh Venkatesh", 40, "Male", "9444567804", "O-", 80, "suresh.v@gmail.com", "T. Nagar, Chennai", "normal", "normal", "normal", "None"),
    DonorSeed("Ananya Sharma", 23, "Female", "9876234105", "B+", 52, "ananya.s@gmail.com", "Jubilee Hills, Hyderabad", "normal", "normal", "low", "Mild Anaemia"),
    DonorSeed("Karthik Raman", 35, "Male", "9789456706", "A-", 68, "karthik.r@icloud.com", "Velachery, Chennai", "normal", "normal", "normal", "None"),
    DonorSeed("Fatima Begum", 27, "Female", "9845123407", "O+", 60, "fatima.b@gmail.com", "Mylapore, Chennai", "normal", "normal", "normal", "None"),
    DonorSeed("Vikram Singh", 38, "Male", "9871234508", "B-", 85, "vikram.singh@hotmail.com", "Connaught Place, Delhi", "normal", "high", "normal", "Controlled Diabetes"),
    DonorSeed("Lakshmi Devi", 30, "Female", "9445678909", "AB-", 54, "lakshmi.d@gmail.com", "Tambaram, Chennai", "normal", "normal", "normal", "None"),
    DonorSeed("Arun Prasad", 45, "Male", "9567890110", "A+", 75, "arun.prasad@gmail.com", "RS Puram, Coimbatore", "normal", "normal", "normal", "None"),
    DonorSeed("Sneha Reddy", 26, "Female", "9876543211", "O+", 56, "sneha.reddy@gmail.com", "Banjara Hills, Hyderabad", "normal", "normal", "normal", "None"),
    DonorSeed("Ganesh Murugan", 33, "Male", "9789012312", "B+", 70, "ganesh.m@gmail.com", "Madurai", "normal", "normal", "normal", "None"),
    DonorSeed("Meena Kumari", 22, "Female", "9845012313", "A+", 50, "meena.k@yahoo.com", "Thiruvananthapuram", "normal", "normal", "normal", "None"),
    DonorSeed("Rajesh Khanna", 42, "Male", "9871230014", "O+", 82, "rajesh.k@gmail.com", "Andheri, Mumbai", "normal", "normal", "normal", "None")
  ]

  /** The seed's window for `last_donation`: a whole number of days, 0 to 179, before `now`. */
  function DaysBack(random: real): (n: int)
    requires 0.0 <= random < 1.0
    ensures 0 <= n < 180
  {
    (random * 180.0).Floor
  }

  /** The row `donor.create` stores for a sample donor: its id, the hashed password, the
      registration time, a last donation `DaysBack(random)` days ago and the eligibility
      registration would give. */
  function SeededDonor(id: int, s: DonorSeed, random: real, now: int, passwordHash: string): (d: Donor)
    requires 0.0 <= random < 1.0
    ensures d.id == id && d.phone == s.phone && d.email == s.email
    ensures d.eligibility == DonorsRoute.EligibleText <==>
              s.haemoglobin == "normal" && s.sugar == "normal" && s.pressure == "normal"
    ensures d.eligibility == DonorsRoute.InitialEligibility(d.haemoglobin, d.pressure, d.sugar)
    ensures d.lastDonation.Some? && now - 179 * DayMs <= d.lastDonation.value <= now
    ensures d.registeredAt == now && d.passwordHash == Some(passwordHash)
  {
    Donor(id, s.name, s.age, s.sex, s.phone, s.bloodGroup, Some(s.weight), s.email,
          Some(s.address), Some(s.haemoglobin), Some(s.sugar), Some(s.pressure),
          Some(s.diseases), now, Some(now - DaysBack(random) * DayMs),
          DonorsRoute.InitialEligibility(Some(s.haemoglobin), Some(s.pressure), Some(s.sugar)),
          Some(passwordHash))
  }

  function HasPhone(phone: string): Donor -> bool
  {
    (d: Donor) => d.phone == phone
  }

  function HasDonorEmail(email: string): Donor -> bool
  {
    (d: Donor) => d.email == email
  }

  predicate Registered(donors: seq<Donor>, phone: string)
  {
    exists k :: 0 <= k < |donors| && donors[k].phone == phone
  }

  /** Some donor has the phone of each seed record. */
  ghost predicate PhonesPresent(donors: seq<Donor>, records: seq<DonorSeed>)
  {
    forall j :: 0 <= j < |records| ==> Registered(donors, records[j].phone)
  }

  /** A donor row the seed added at time `now`, with one of the `hashes`. */
  ghost predicate SeededRow(d: Donor, now: int, hashes: seq<string>)
  {
    && d.eligibility == DonorsRoute.InitialEligibility(d.haemoglobin, d.pressure, d.sugar)
    && d.lastDonation.Some? && now - 179 * DayMs <= d.lastDonation.value <= now
    && d.registeredAt == now && d.passwordHash.Some? && d.passwordHash.value in hashes
  }

  /** Step 3: each sample donor whose phone no donor has is created. `randoms[i]` is the value
      `Math.random()` returns for record i and `hashes[i]` its hash of the sample password.
      If a phone is new but the address is taken, `donor.create` violates the unique email
      and the seed stops with `failed`. */
  method SeedDonors(db: Db, records: seq<DonorSeed>, randoms: seq<real>, hashes: seq<string>, now: int)
    returns (created: nat, failed: bool)
    requires db.Valid()
    requires |randoms| == |records| && |hashes| == |records|
    requires forall i :: 0 <= i < |randoms| ==> 0.0 <= randoms[i] < 1.0
    modifies db`donors, db`nextDonorId
    ensures db.Valid()
    // Existing donors are kept as they were; `created` rows are added after them.
    ensures |db.donors| == |old(db.donors)| + created && db.donors[..|old(db.donors)|] == old(db.donors)
    ensures forall k :: |old(db.donors)| <= k < |db.donors| ==> SeededRow(db.donors[k], now, hashes)
    ensures !failed ==> PhonesPresent(db.donors, records)
    // Nothing is inserted when every phone is already registered.
    ensures PhonesPresent(old(db.donors), records) ==>
              !failed && created == 0 && db.donors == old(db.donors)
  {
    created, failed := 0, false;
    var i := 0;
    while i < |records|
      invariant 0 <= i <= |records|
      invariant db.Valid()
      invariant |db.donors| == |old(db.donors)| + created && db.donors[..|old(db.donors)|] == old(db.donors)
      invariant forall k :: |old(db.donors)| <= k < |db.donors| ==> SeededRow(db.donors[k], now, hashes)
      invariant PhonesPresent(db.donors, records[..i])
      invariant PhonesPresent(old(db.donors), records) ==> created == 0 && db.donors == old(db.donors)
    {
      assert records[..i + 1] == records[..i] + [records[i]];
      var inserted;
      inserted, failed := SeedDonor(db, records[i], randoms[i], hashes[i], now, records[..i]);
      if failed {
        return;
      }
      if inserted {
        created := created + 1;
      }
      i := i + 1;
    }
    assert records[..i] == records;
  }

  /** One sample donor: looked up by phone, created if absent. */
  method SeedDonor(db: Db, s: DonorSeed, random: real, passwordHash: string, now: int,
                   ghost done: seq<DonorSeed>) returns (inserted: bool, failed: bool)
    requires db.Valid() && 0.0 <= random < 1.0
    requires PhonesPresent(db.donors, done)
    modifies db`donors, db`nextDonorId
    ensures db.Valid()
    ensures !inserted ==> db.donors == old(db.donors)
    ensures inserted ==>
              !failed && db.donors == old(db.donors) + [SeededDonor(old(db.nextDonorId), s, random, now, passwordHash)]
    ensures !failed ==> PhonesPresent(db.donors, done + [s])
    ensures Registered(old(db.donors), s.phone) ==> !inserted && !failed
  {
    inserted, failed := false, false;
    var existing := FindFirst(db.donors, HasPhone(s.phone));
    if existing.Some? {
      assert db.donors[existing.value].phone == s.phone;
      return;
    }
    if FindFirst(db.donors, HasDonorEmail(s.email)).Some? {
      failed := true;
      return;
    }
    var row := SeededDonor(db.nextDonorId, s, random, now, passwordHash);
    assert forall k :: 0 <= k < |db.donors| ==> !HasPhone(s.phone)(db.donors[k]);
    assert forall k :: 0 <= k < |db.donors| ==> !HasDonorEmail(s.email)(db.donors[k]);
    AppendKeepsPhones(db.donors, row, done);
    db.InsertDonor(row);
    inserted := true;
    assert db.donors[|db.donors| - 1].phone == s.phone;
  }

  lemma AppendKeepsPhones(donors: seq<Donor>, d: Donor, records: seq<DonorSeed>)
    requires PhonesPresent(donors, records)
    ensures PhonesPresent(donors + [d], records)
  {
    forall j | 0 <= j < |records|
      ensures Registered(donors + [d], records[j].phone)
    {
      assert Registered(donors, records[j].phone);
      var k :| 0 <= k < |donors| && donors[k].phone == records[j].phone;
      assert (donors + [d])[k] == donors[k];
    }
  }

  /** A sample recipient of `INDIAN_RECIPIENTS`. */
  datatype RecipientSeed = RecipientSeed(
    name: string, age: int, sex: string, phone: string, bloodGroup: string, hospital: string,
    doctor: string, urgency: string, purpose: string, address: string)

  const SampleRecipients := [
    RecipientSeed("Kavitha Sundaram", 45, "Female", "9841098701", "O+", "Apollo Hospital, Chennai", "Dr. Srinivas Rao", "Urgent", "Surgery", "Greams Road, Chennai"),
    RecipientSeed("Arjun Mehta", 8, "Male", "9876098702", "B+", "CMC Vellore", "Dr. Thomas Mathew", "Critical", "Thalassemia", "Vellore, Tamil Nadu"),
    RecipientSeed("Sita Ram", 62, "Female", "9445098703", "A+", "AIIMS Delhi", "Dr. Anil Kumar", "Normal", "Cancer", "Ansari Nagar, Delhi"),
    RecipientSeed("Bharath Kumar", 28, "Male", "9567098704", "AB+", "Stanley Medical College, Chennai", "Dr. Meena Ganesan", "Critical", "Accident", "Royapuram, Chennai"),
    RecipientSeed("Divya Krishnan", 30, "Female", "9789098705", "O-", "Fortis Hospital, Bengaluru", "Dr. Priya Verma", "Urgent", "Pregnancy", "Bannerghatta Road, Bengaluru"),
    RecipientSeed("Mohan Das", 55, "Male", "9871098706", "B-", "JIPMER Puducherry", "Dr. Karthik Subramani", "Normal", "Surgery", "Dhanvantari Nagar, Puducherry"),
    RecipientSeed("Nithya Raj", 19, "Female", "9845098707", "A-", "Manipal Hospital, Chennai", "Dr. Rajesh Babu", "Urgent", "Dengue", "Porur, Chennai"),
    RecipientSeed("Venkatesh Iyer", 70, "Male", "9123098708", "O+", "Kauvery Hospital, Trichy", "Dr. Sundar Rajan", "Normal", "Anaemia", "Cantonment, Trichy")
  ]

  /** The row `recipient.create` stores for a sample recipient, registered at `now`. */
  function SeededRecipient(id: int, s: RecipientSeed, now: int): (r: Recipient)
    ensures r.id == id && r.phone == s.phone && r.urgency == s.urgency && r.registeredAt == now
  {
    Recipient(id, s.name, s.age, s.sex, s.phone, s.bloodGroup, Some(s.hospital), Some(s.doctor),
              Some(s.address), s.urgency, Some(s.purpose), now)
  }

  predicate Listed(recipients: seq<Recipient>, phone: string)
  {
    exists k :: 0 <= k < |recipients| && recipients[k].phone == phone
  }

  /** Some recipient has the phone of each seed record. */
  ghost predicate RecipientPhonesPresent(recipients: seq<Recipient>, records: seq<RecipientSeed>)
  {
    forall j :: 0 <= j < |records| ==> Listed(recipients, records[j].phone)
  }

  /** Step 4: each sample recipient whose phone no recipient has is created at `now`. */
  method SeedRecipients(db: Db, records: seq<RecipientSeed>, now: int) returns (created: nat)
    requires db.Valid()
    modifies db`recipients, db`nextRecipientId
    ensures db.Valid()
    ensures |db.recipients| == |old(db.recipients)| + created
    ensures db.recipients[..|old(db.recipients)|] == old(db.recipients)
    ensures forall k :: |old(db.recipients)| <= k < |db.recipients| ==> db.recipients[k].registeredAt == now
    ensures RecipientPhonesPresent(db.recipients, records)
    ensures RecipientPhonesPresent(old(db.recipients), records) ==>
              created == 0 && db.recipients == old(db.recipients)
  {
    created := 0;
    var i := 0;
    while i < |records|
      invariant 0 <= i <= |records|
      invariant db.Valid()
      invariant |db.recipients| == |old(db.recipients)| + created
      invariant db.recipients[..|old(db.recipients)|] == old(db.recipients)
      invariant forall k :: |old(db.recipients)| <= k < |db.recipients| ==> db.recipients[k].registeredAt == now
      invariant RecipientPhonesPresent(db.recipients, records[..i])
      invariant RecipientPhonesPresent(old(db.recipients), records) ==>
                  created == 0 && db.recipients == old(db.recipients)
    {
      assert records[..i + 1] == records[..i] + [records[i]];
      var inserted := SeedRecipient(db, records[i], now, records[..i]);
      if inserted {
        created := created + 1;
      }
      i := i + 1;
    }
    assert records[..i] == records;
  }

  /** One sample recipient: looked up by phone, created if absent. */
  method SeedRecipient(db: Db, s: RecipientSeed, now: int, ghost done: seq<RecipientSeed>)
    returns (inserted: bool)
    requires db.Valid() && RecipientPhonesPresent(db.recipients, done)
    modifies db`recipients, db`nextRecipientId
    ensures db.Valid()
    ensures !inserted ==> db.recipients == old(db.recipients)
    ensures inserted ==>
              db.recipients == old(db.recipients) + [SeededRecipient(old(db.nextRecipientId), s, now)]
    ensures RecipientPhonesPresent(db.recipients, done + [s])
    ensures Listed(old(db.recipients), s.phone) ==> !inserted
  {
    inserted := false;
    var existing := FindFirst(db.recipients, RecipientRoute.HasPhone(s.phone));
    if existing.Some? {
      assert db.recipients[existing.value].phone == s.phone;
      return;
    }
    var row := SeededRecipient(db.nextRecipientId, s, now);
    AppendBelow(db.recipients, row, RecipientIdOf, db.nextRecipientId);
    CounterIsFresh(db.recipients, RecipientIdOf, db.nextRecipientId);
    AppendDistinct(db.recipients, row, RecipientIdOf);
    assert forall k :: 0 <= k < |db.recipients| ==> !RecipientRoute.HasPhone(s.phone)(db.recipients[k]);
    AppendDistinct(db.recipients, row, RecipientPhoneOf);
    AppendKeepsRecipientPhones(db.recipients, row, done);
    db.recipients, db.nextRecipientId := db.recipients + [row], db.nextRecipientId + 1;
    inserted := true;
    assert db.recipients[|db.recipients| - 1].phone == s.phone;
  }

  lemma AppendKeepsRecipientPhones(recipients: seq<Recipient>, r: Recipient, records: seq<RecipientSeed>)
    requires RecipientPhonesPresent(recipients, records)
    ensures RecipientPhonesPresent(recipients + [r], records)
  {
    forall j | 0 <= j < |records|
      ensures Listed(recipients + [r], records[j].phone)
    {
      assert Listed(recipients, records[j].phone);
      var k :| 0 <= k < |recipients| && recipients[k].phone == records[j].phone;
      assert (recipients + [r])[k] == recipients[k];
    }
  }

  /** The sample request for the first recipient: its group (or O+ when that is empty), two
      units, critical, for surgery at Apollo Hospital, PENDING. */
  function SampleRequest(id: int, first: Recipient): (r: BloodRequest)
    ensures r.id == id
    // It names the first recipient by the (id, name) pair the request reconciler looks up ...
    ensures RequestsRoute.IsRecipient(r.recipientId, r.recipientName)(first)
    // ... asks for that recipient's own group when it has one, and is a request the request
    // form would accept for a recipient the form would accept.
    ensures first.bloodGroup != "" ==> r.bloodGroup == first.bloodGroup
    ensures |first.name| >= 2 && first.id >= 1 ==>
              RequestsRoute.FormValid(RequestsRoute.RequestForm(r.recipientName, r.bloodGroup, r.units, r.recipientId))
    ensures r.status == Some("PENDING")
  {
    BloodRequest(id, first.name, first.id, if first.bloodGroup == "" then "O+" else first.bloodGroup,
                 2, Some("Critical"), Some("Surgery"), Some("Apollo Hospital, Chennai"), Some("PENDING"))
  }

  /** Step 5: one sample request, only into an empty request table and only when there is a
      recipient to point at. */
  method SeedRequest(db: Db)
    requires db.Valid()
    modifies db`requests, db`nextRequestId
    ensures db.Valid()
    ensures |old(db.requests)| == 0 && |db.recipients| > 0 ==>
              db.requests == [SampleRequest(old(db.nextRequestId), db.recipients[0])]
    ensures |old(db.requests)| != 0 || |db.recipients| == 0 ==>
              db.requests == old(db.requests) && db.nextRequestId == old(db.nextRequestId)
  {
    if |db.requests| == 0 && |db.recipients| > 0 {
      var row := SampleRequest(db.nextRequestId, db.recipients[0]);
      AppendBelow(db.requests, row, RequestIdOf, db.nextRequestId);
      AppendDistinct(db.requests, row, RequestIdOf);
      db.requests, db.nextRequestId := db.requests + [row], db.nextRequestId + 1;
    }
  }

  /** `main()` at time `now`: admin, stock, donors, recipients, then the sample request. The
      run stops after the donors when a sample donor's address is taken. */
  method Run(db: Db, adminEmail: Option<string>, adminHash: string, randoms: seq<real>,
             hashes: seq<string>, now: int) returns (donorsCreated: nat, recipientsCreated: nat, failed: bool)
    requires db.Valid()
    requires |randoms| == |SampleDonors| && |hashes| == |SampleDonors|
    requires forall i :: 0 <= i < |randoms| ==> 0.0 <= randoms[i] < 1.0
    modifies db`users, db`nextUserId, db`stock, db`nextStockId, db`donors, db`nextDonorId
    modifies db`recipients, db`nextRecipientId, db`requests, db`nextRequestId
    ensures db.Valid()
    ensures FindFirst(db.users, HasEmail(OrElse(adminEmail, DefaultAdminEmail))).Some?
    ensures FindFirst(old(db.users), HasEmail(OrElse(adminEmail, DefaultAdminEmail))).Some? ==>
              db.users == old(db.users)
    ensures Stocked(db.stock) && (Stocked(old(db.stock)) ==> db.stock == old(db.stock))
    ensures |db.donors| >= |old(db.donors)| && db.donors[..|old(db.donors)|] == old(db.donors)
    ensures !failed ==> PhonesPresent(db.donors, SampleDonors)
    ensures !failed ==> RecipientPhonesPresent(db.recipients, SampleRecipients) && |db.requests| >= 1
    // A second run finds every phone and a request, and adds nothing.
    ensures PhonesPresent(old(db.donors), SampleDonors) &&
            RecipientPhonesPresent(old(db.recipients), SampleRecipients) ==>
              !failed && donorsCreated == 0 && recipientsCreated == 0 &&
              db.donors == old(db.donors) && db.recipients == old(db.recipients)
    ensures |old(db.requests)| >= 1 ==> db.requests == old(db.requests)
  {
    SeedAdmin(db, adminEmail, adminHash);
    SeedStock(db);
    donorsCreated, recipientsCreated, failed := SeedPeople(db, randoms, hashes, now);
  }

  /** Steps 3 to 5 of `main()`. */
  method SeedPeople(db: Db, randoms: seq<real>, hashes: seq<string>, now: int)
    returns (donorsCreated: nat, recipientsCreated: nat, failed: bool)
    requires db.Valid()
    requires |randoms| == |SampleDonors| && |hashes| == |SampleDonors|
    requires forall i :: 0 <= i < |randoms| ==> 0.0 <= randoms[i] < 1.0
    modifies db`donors, db`nextDonorId, db`recipients, db`nextRecipientId, db`requests, db`nextRequestId
    ensures db.Valid()
    ensures |db.donors| >= |old(db.donors)| && db.donors[..|old(db.donors)|] == old(db.donors)
    ensures !failed ==> PhonesPresent(db.donors, SampleDonors)
    ensures !failed ==> RecipientPhonesPresent(db.recipients, SampleRecipients) && |db.requests| >= 1
    ensures PhonesPresent(old(db.donors), SampleDonors) &&
            RecipientPhonesPresent(old(db.recipients), SampleRecipients) ==>
              !failed && donorsCreated == 0 && recipientsCreated == 0 &&
              db.donors == old(db.donors) && db.recipients == old(db.recipients)
    ensures |old(db.requests)| >= 1 ==> db.requests == old(db.requests)
  {
    recipientsCreated := 0;
    donorsCreated, failed := SeedDonors(db, SampleDonors, randoms, hashes, now);
    if failed {
      return;
    }
    recipientsCreated := SeedRecipients(db, SampleRecipients, now);
    assert Listed(db.recipients, SampleRecipients[0].phone);
    SeedRequest(db);
  }

  /** Running the seed a second time on the database the first run left changes no stock row
      and inserts no donor, recipient, request or administrator. */
  method SeedTwice(db: Db, adminEmail: Option<string>, adminHash: string, randoms: seq<real>,
                   hashes: seq<string>, now: int, later: int)
    returns (firstOk: bool, secondOk: bool, donorsAgain: nat, recipientsAgain: nat,
             ghost afterFirst: (seq<StockRow>, seq<Donor>, seq<Recipient>, seq<BloodRequest>, seq<AdminUser>))
    requires db.Valid()
    requires |randoms| == |SampleDonors| && |hashes| == |SampleDonors|
    requires forall i :: 0 <= i < |randoms| ==> 0.0 <= randoms[i] < 1.0
    modifies db`users, db`nextUserId, db`stock, db`nextStockId, db`donors, db`nextDonorId
    modifies db`recipients, db`nextRecipientId, db`requests, db`nextRequestId
    ensures db.Valid()
    ensures firstOk ==>
              secondOk && donorsAgain == 0 && recipientsAgain == 0 &&
              (db.stock, db.donors, db.recipients, db.requests, db.users) == afterFirst
  {
    var _, _, failed := Run(db, adminEmail, adminHash, randoms, hashes, now);
    firstOk := !failed;
    afterFirst := (db.stock, db.donors, db.recipients, db.requests, db.users);
    donorsAgain, recipientsAgain, failed := Run(db, adminEmail, adminHash, randoms, hashes, later);
    secondOk := !failed;
  }
}
