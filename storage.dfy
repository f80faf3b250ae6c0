/**
 * The in-memory entity store of server/storage.ts (class MemStorage).
 *
 * Each JavaScript `Map<number, Record>` is only ever written with `set(id, …)`
 * for an id taken from its counter, or for a key it already holds, and is never
 * deleted from. Its insertion order is therefore ascending id order, and it is
 * modelled as a sequence whose element `i` is the record with id `i + 1`:
 * `get(id)` is indexing at `id - 1`, `set` on a present key is a sequence
 * update in place, and `Array.from(map.values())` is the sequence itself.
 */
module Storage {
  import opened Wrappers
  import opened Schema
  import JsString

  /** `Array.prototype.find`: the first element satisfying `p`, if any. */
  function Find<T>(s: seq<T>, p: T -> bool): (r: Option<T>)
    ensures r.None? <==> forall i :: 0 <= i < |s| ==> !p(s[i])
    ensures r.Some? ==> exists i :: 0 <= i < |s| && s[i] == r.value && p(s[i]) && forall j :: 0 <= j < i ==> !p(s[j])
  {
    if |s| == 0 then None
    else if p(s[0]) then Some(s[0])
    else Find(s[1..], p)
  }

  /** `Array.prototype.filter`: the elements satisfying `p`, in their order. */
  function Filter<T(!new)>(s: seq<T>, p: T -> bool): (r: seq<T>)
    ensures |r| <= |s|
    ensures forall x :: x in r <==> x in s && p(x)
  {
    if |s| == 0 then []
    else if p(s[0]) then [s[0]] + Filter(s[1..], p)
    else Filter(s[1..], p)
  }

  /** `key` strictly increases along `s`. */
  ghost predicate IncreasingBy<T>(s: seq<T>, key: T -> int) {
    forall i, j :: 0 <= i < j < |s| ==> key(s[i]) < key(s[j])
  }

  /** Filtering keeps elements in their relative order: a strictly increasing key stays so. */
  lemma {:induction false} FilterKeepsOrder<T(!new)>(s: seq<T>, p: T -> bool, key: T -> int)
    requires IncreasingBy(s, key)
    ensures IncreasingBy(Filter(s, p), key)
  {
    if |s| > 0 {
      var tail := Filter(s[1..], p);
      assert IncreasingBy(s[1..], key) by {
        forall i, j | 0 <= i < j < |s[1..]| ensures key(s[1..][i]) < key(s[1..][j]) {
          assert s[1..][i] == s[i + 1] && s[1..][j] == s[j + 1];
        }
      }
      FilterKeepsOrder(s[1..], p, key);
      if p(s[0]) {
        var r := Filter(s, p);
        assert r == [s[0]] + tail;
        forall j | 0 <= j < |tail| ensures key(s[0]) < key(tail[j]) {
          assert tail[j] in s[1..];
          var k :| 0 <= k < |s[1..]| && s[1..][k] == tail[j];
          assert s[k + 1] == tail[j];
        }
        forall i, j | 0 <= i < j < |r| ensures key(r[i]) < key(r[j]) {
          assert r[j] == tail[j - 1];
          if i > 0 {
            assert r[i] == tail[i - 1];
          }
        }
      }
    }
  }

  /** Filtering with predicates that agree everywhere gives the same result. */
  lemma {:induction false} FilterSamePredicate<T(!new)>(s: seq<T>, p: T -> bool, q: T -> bool)
    requires forall x :: p(x) == q(x)
    ensures Filter(s, p) == Filter(s, q)
  {
    if |s| > 0 {
      FilterSamePredicate(s[1..], p, q);
    }
  }

  /** One record of the seed data of initializeSampleMaids. */
  datatype SampleMaid = SampleMaid(
    name: string,
    email: string,
    phone: string,
    city: string,
    locality: string,
    address: string,
    experience: string,
    services: seq<string>,
    joinedAt: Timestamp)

  const SampleMaids: seq<SampleMaid> := [
    SampleMaid("Priya Sharma", "priya.sharma@example.com", "9876543210", "Mumbai", "Andheri",
      "123 Main Street, Andheri East", "5 years", ["Cleaning", "Cooking", "Child Care"], "2023-01-15T08:30:00.000Z"),
    SampleMaid("Anjali Patel", "anjali.patel@example.com", "8765432109", "Mumbai", "Bandra",
      "45 Park Avenue, Bandra West", "3 years", ["Cleaning", "Laundry"], "2023-03-10T10:15:00.000Z"),
    SampleMaid("Lakshmi Reddy", "lakshmi.reddy@example.com", "7654321098", "Bangalore", "Indiranagar",
      "78 Green View, Indiranagar", "7 years", ["Cooking", "Cleaning", "Elder Care"], "2022-11-05T09:45:00.000Z"),
    SampleMaid("Meena Kumari", "meena.kumari@example.com", "6543210987", "Delhi", "Saket",
      "25 Ring Road, Saket", "4 years", ["Cooking", "Child Care"], "2023-02-22T14:30:00.000Z"),
    SampleMaid("Sunita Devi", "sunita.devi@example.com", "5432109876", "Delhi", "Connaught Place",
      "10 Central Lane, Connaught Place", "6 years", ["Cleaning", "Laundry", "Cooking"], "2022-12-18T11:20:00.000Z"),
    SampleMaid("Rekha Mishra", "rekha.mishra@example.com", "4321098765", "Kolkata", "Salt Lake",
      "55 Lake View, Salt Lake", "8 years", ["Cleaning", "Cooking", "Elder Care", "Child Care"], "2022-10-30T07:55:00.000Z"),
    SampleMaid("Geeta Singh", "geeta.singh@example.com", "3210987654", "Chennai", "Adyar",
      "32 Beach Road, Adyar", "2 years", ["Cleaning"], "2023-04-05T15:40:00.000Z"),
    SampleMaid("Kavita Joshi", "kavita.joshi@example.com", "2109876543", "Hyderabad", "Banjara Hills",
      "89 Hill View, Banjara Hills", "5 years", ["Cooking", "Child Care"], "2023-01-28T12:10:00.000Z"),
    SampleMaid("Deepa Gupta", "deepa.gupta@example.com", "1098765432", "Pune", "Koregaon Park",
      "12 River Road, Koregaon Park", "4 years", ["Cleaning", "Laundry", "Cooking"], "2023-02-14T13:25:00.000Z"),
    SampleMaid("Asha Verma", "asha.verma@example.com", "0987654321", "Jaipur", "Malviya Nagar",
      "67 Pink City, Malviya Nagar", "3 years", ["Cleaning", "Elder Care"], "2023-03-20T16:15:00.000Z")
  ]

  /** `{ ...maid, id, isAvailable: true }` for a seed record. */
  function SeededMaid(s: SampleMaid, id: int): Maid {
    Maid(id, s.name, s.email, s.phone, s.city, s.locality, Some(s.address), Some(s.experience),
      Some(s.services), s.joinedAt, Some(true))
  }

  /** The first `n` seed records stored under consecutive ids from `firstId`. */
  function SeededMaids(firstId: int, n: nat): seq<Maid>
    requires n <= |SampleMaids|
  {
    seq(n, k requires 0 <= k < n => SeededMaid(SampleMaids[k], firstId + k))
  }

  /** One more seed record extends the seeded sequence by that record. */
  lemma SeededMaidsSnoc(firstId: int, k: nat)
    requires k < |SampleMaids|
    ensures SeededMaids(firstId, k + 1) == SeededMaids(firstId, k) + [SeededMaid(SampleMaids[k], firstId + k)]
  {
    assert SeededMaids(firstId, k + 1)[..k] == SeededMaids(firstId, k);
  }

  /** The credentials of the admin account initializeAdminUser creates. */
  function AdminUser(passwordHash: string): InsertUser {
    InsertUser("admin", passwordHash, "admin@maideasy.com", "Admin User", Some("admin"))
  }

  /** The settings initializeCompanySettings installs when none exist. */
  const DefaultCompanySettings: InsertCompanySettings := InsertCompanySettings(
    "MaidEasy", "contact@maideasy.com", "+91 9876543210", "123 Main Street, Mumbai, India",
    Some("/logo.png"),
    Some(["Cleaning", "Cooking", "Child Care", "Elderly Care", "Laundry", "Pet Care"]),
    Some("Monday to Saturday, 8:00 AM to 8:00 PM"))

  /** The settings record the first upsert of the defaults stores at time `now`. */
  function DefaultSettingsRecord(now: Timestamp): CompanySettings {
    var d := DefaultCompanySettings;
    CompanySettings(1, d.companyName, d.contactEmail, d.contactPhone, d.address, d.logo,
      d.servicesOffered, d.operatingHours, now)
  }

  /** Case-insensitive equality as the city and locality filters compare. */
  predicate SameIgnoringCase(a: string, b: string) {
    JsString.ToLowerCase(a) == JsString.ToLowerCase(b)
  }

  class MemStorage {
    var users: seq<User>
    var waitlist: seq<WaitlistEntry>
    var maids: seq<Maid>
    var bookings: seq<Booking>
    var companySettings: Option<CompanySettings>

    var currentUserId: nat
    var currentWaitlistId: nat
    var currentMaidId: nat
    var currentBookingId: nat

    /**
     * The store invariant: element `i` of each collection carries id `i + 1`
     * and each counter is the next unused id; every stored maid has a services
     * list and an availability flag; the settings record, if any, has id 1.
     */
    ghost predicate Valid()
      reads this
    {
      && (forall i :: 0 <= i < |users| ==> users[i].id == i + 1)
      && (forall i :: 0 <= i < |waitlist| ==> waitlist[i].id == i + 1)
      && (forall i :: 0 <= i < |maids| ==> maids[i].id == i + 1)
      && (forall i :: 0 <= i < |bookings| ==> bookings[i].id == i + 1)
      && currentUserId == |users| + 1
      && currentWaitlistId == |waitlist| + 1
      && currentMaidId == |maids| + 1
      && currentBookingId == |bookings| + 1
      && (forall i :: 0 <= i < |maids| ==> maids[i].services.Some? && maids[i].isAvailable.Some?)
      && (companySettings.Some? ==> companySettings.value.id == 1)
    }

    /**
     * The constructor followed, synchronously, by the initialisation it starts:
     * the ten sample maids, then the admin account, then the default settings.
     */
    constructor (adminPasswordHash: string, now: Timestamp)
      ensures Valid()
      ensures maids == SeededMaids(1, 10) && currentMaidId == 11
      ensures users == [User(1, "admin", adminPasswordHash, "admin@maideasy.com", "Admin User", "admin", now)]
      ensures waitlist == [] && bookings == []
      ensures companySettings == Some(DefaultSettingsRecord(now))
    {
      users, waitlist, maids, bookings := [], [], [], [];
      companySettings := None;
      currentUserId, currentWaitlistId, currentMaidId, currentBookingId := 1, 1, 1, 1;
      new;
      InitializeSampleMaids();
      InitializeAdminUser(adminPasswordHash, now);
      InitializeCompanySettings(now);
    }

    /** Stores every seed record under the next maid id, in order, all available. */
    method InitializeSampleMaids()
      requires Valid()
      modifies this`maids, this`currentMaidId
      ensures Valid()
      ensures maids == old(maids) + SeededMaids(old(currentMaidId), |SampleMaids|)
      ensures currentMaidId == old(currentMaidId) + |SampleMaids|
    {
      for k := 0 to |SampleMaids|
        invariant Valid()
        invariant maids == old(maids) + SeededMaids(old(currentMaidId), k)
        invariant currentMaidId == old(currentMaidId) + k
      {
        var id := currentMaidId;
        currentMaidId := currentMaidId + 1;
        maids := maids + [SeededMaid(SampleMaids[k], id)];
        SeededMaidsSnoc(old(currentMaidId), k);
      }
    }

    /** Creates the admin account unless a user named "admin" exists. */
    method InitializeAdminUser(passwordHash: string, now: Timestamp)
      requires Valid()
      modifies this`users, this`currentUserId
      ensures Valid()
      ensures old(GetUserByUsername("admin")).Some? ==> users == old(users)
      ensures old(GetUserByUsername("admin")).None? ==>
        users == old(users) + [User(old(currentUserId), "admin", passwordHash, "admin@maideasy.com", "Admin User", "admin", now)]
    {
      var existingAdmin := GetUserByUsername("admin");
      if existingAdmin.None? {
        var _ := CreateUser(AdminUser(passwordHash), now);
      }
    }

    /** Installs the default settings unless settings exist. */
    method InitializeCompanySettings(now: Timestamp)
      requires Valid()
      modifies this`companySettings
      ensures Valid()
      ensures old(companySettings).Some? ==> companySettings == old(companySettings)
      ensures old(companySettings).None? ==> companySettings == Some(DefaultSettingsRecord(now))
    {
      var settings := GetCompanySettings();
      if settings.None? {
        var _ := CreateOrUpdateCompanySettings(DefaultCompanySettings, now);
      }
    }

    // ---- users ----

    function GetUser(id: int): (r: Option<User>)
      reads this
      requires Valid()
      ensures r.Some? ==> r.value in users && r.value.id == id
      ensures r.None? ==> forall u :: u in users ==> u.id != id
    {
      if 1 <= id <= |users| then Some(users[id - 1]) else None
    }

    function GetUserByUsername(username: string): (r: Option<User>)
      reads this
      ensures r.None? <==> forall u :: u in users ==> u.username != username
      ensures r.Some? ==> exists i :: 0 <= i < |users| && users[i] == r.value && r.value.username == username
                                      && forall j :: 0 <= j < i ==> users[j].username != username
    {
      Find(users, (u: User) => u.username == username)
    }

    function GetUserByEmail(email: string): (r: Option<User>)
      reads this
      ensures r.None? <==> forall u :: u in users ==> u.email != email
      ensures r.Some? ==> exists i :: 0 <= i < |users| && users[i] == r.value && r.value.email == email
                                      && forall j :: 0 <= j < i ==> users[j].email != email
    {
      Find(users, (u: User) => u.email == email)
    }

    /** Stores a new user under the next user id; role defaults to "customer". */
    method CreateUser(input: InsertUser, now: Timestamp) returns (user: User)
      requires Valid()
      modifies this`users, this`currentUserId
      ensures Valid()
      ensures user.id == old(currentUserId) && currentUserId == old(currentUserId) + 1
      ensures forall u :: u in old(users) ==> u.id < user.id
      ensures user.username == input.username && user.password == input.password
      ensures user.email == input.email && user.name == input.name
      ensures user.role == input.role.GetOr("customer")
      ensures user.createdAt == now
      ensures users == old(users) + [user]
      ensures GetUser(user.id) == Some(user)
    {
      var id := currentUserId;
      currentUserId := currentUserId + 1;
      var role := input.role.GetOr("customer");
      user := User(id, input.username, input.password, input.email, input.name, role, now);
      users := users + [user];
    }

    // ---- waitlist ----

    function GetWaitlistEntries(): (r: seq<WaitlistEntry>)
      reads this
      requires Valid()
      ensures |r| == |waitlist|
      ensures forall e :: e in r <==> e in waitlist
      ensures forall i :: 0 <= i < |r| ==> r[i].id == i + 1
    {
      waitlist
    }

    function GetWaitlistEntryByEmail(email: string): (r: Option<WaitlistEntry>)
      reads this
      ensures r.None? <==> forall e :: e in waitlist ==> e.email != email
      ensures r.Some? ==> exists i :: 0 <= i < |waitlist| && waitlist[i] == r.value && r.value.email == email
                                      && forall j :: 0 <= j < i ==> waitlist[j].email != email
    {
      Find(waitlist, (e: WaitlistEntry) => e.email == email)
    }

    /** Stores a new entry under the next waitlist id; an absent company is stored as null. */
    method CreateWaitlistEntry(input: InsertWaitlistEntry, now: Timestamp) returns (entry: WaitlistEntry)
      requires Valid()
      modifies this`waitlist, this`currentWaitlistId
      ensures Valid()
      ensures entry.id == old(currentWaitlistId) && currentWaitlistId == old(currentWaitlistId) + 1
      ensures forall e :: e in old(waitlist) ==> e.id < entry.id
      ensures entry.name == input.name && entry.email == input.email
      ensures entry.company == input.company
      ensures entry.joinedAt == now
      ensures waitlist == old(waitlist) + [entry]
    {
      var id := currentWaitlistId;
      currentWaitlistId := currentWaitlistId + 1;
      entry := WaitlistEntry(id, input.name, input.email, input.company, now);
      waitlist := waitlist + [entry];
    }

    // ---- maids ----

    function GetMaids(): (r: seq<Maid>)
      reads this
      requires Valid()
      ensures |r| == |maids|
      ensures forall m :: m in r <==> m in maids
      ensures forall i :: 0 <= i < |r| ==> r[i].id == i + 1
    {
      maids
    }

    function GetMaidsByCity(city: string): (r: seq<Maid>)
      reads this
      requires Valid()
      ensures forall m :: m in r <==> m in maids && SameIgnoringCase(m.city, city)
      ensures forall i, j :: 0 <= i < j < |r| ==> r[i].id < r[j].id
    {
      var p := (m: Maid) => SameIgnoringCase(m.city, city);
      var key := (m: Maid) => m.id;
      assert IncreasingBy(maids, key);
      FilterKeepsOrder(maids, p, key);
      var r := Filter(maids, p);
      assert forall i :: 0 <= i < |r| ==> key(r[i]) == r[i].id;
      assert IncreasingBy(r, key);
      r
    }

    function GetMaidsByLocality(locality: string): (r: seq<Maid>)
      reads this
      requires Valid()
      ensures forall m :: m in r <==> m in maids && SameIgnoringCase(m.locality, locality)
      ensures forall i, j :: 0 <= i < j < |r| ==> r[i].id < r[j].id
    {
      var p := (m: Maid) => SameIgnoringCase(m.locality, locality);
      var key := (m: Maid) => m.id;
      assert IncreasingBy(maids, key);
      FilterKeepsOrder(maids, p, key);
      var r := Filter(maids, p);
      assert forall i :: 0 <= i < |r| ==> key(r[i]) == r[i].id;
      assert IncreasingBy(r, key);
      r
    }

    function GetMaidById(id: int): (r: Option<Maid>)
      reads this
      requires Valid()
      ensures r.Some? ==> r.value in maids && r.value.id == id
      ensures r.None? ==> forall m :: m in maids ==> m.id != id
    {
      if 1 <= id <= |maids| then Some(maids[id - 1]) else None
    }

    function GetMaidByEmail(email: string): (r: Option<Maid>)
      reads this
      ensures r.None? <==> forall m :: m in maids ==> m.email != email
      ensures r.Some? ==> exists i :: 0 <= i < |maids| && maids[i] == r.value && r.value.email == email
                                      && forall j :: 0 <= j < i ==> maids[j].email != email
    {
      Find(maids, (m: Maid) => m.email == email)
    }

    /**
     * Stores a new maid under the next maid id: the required fields verbatim,
     * address and experience null and services empty when omitted, always available.
     */
    method CreateMaid(input: InsertMaid, now: Timestamp) returns (maid: Maid)
      requires Valid()
      modifies this`maids, this`currentMaidId
      ensures Valid()
      ensures maid.id == old(currentMaidId) && currentMaidId == old(currentMaidId) + 1
      ensures forall m :: m in old(maids) ==> m.id < maid.id
      ensures maid.name == input.name && maid.email == input.email && maid.phone == input.phone
      ensures maid.city == input.city && maid.locality == input.locality
      ensures maid.address == input.address && maid.experience == input.experience
      ensures maid.services == Some(input.services.GetOr([]))
      ensures maid.joinedAt == now && maid.isAvailable == Some(true)
      ensures maids == old(maids) + [maid]
      ensures GetMaidById(maid.id) == Some(maid)
    {
      var id := currentMaidId;
      currentMaidId := currentMaidId + 1;
      var services := input.services.GetOr([]);
      maid := Maid(id, input.name, input.email, input.phone, input.city, input.locality,
        input.address, input.experience, Some(services), now, Some(true));
      maids := maids + [maid];
    }

    /** Sets the availability flag of one maid; an unknown id changes nothing. */
    method UpdateMaidAvailability(id: int, isAvailable: bool) returns (r: Option<Maid>)
      requires Valid()
      modifies this`maids
      ensures Valid()
      ensures r.None? <==> old(GetMaidById(id)).None?
      ensures r.None? ==> maids == old(maids)
      ensures r.Some? ==> r.value == old(GetMaidById(id)).value.(isAvailable := Some(isAvailable))
      ensures r.Some? ==> |maids| == |old(maids)| && maids[id - 1] == r.value
      ensures forall i :: 0 <= i < |old(maids)| && i != id - 1 ==> i < |maids| && maids[i] == old(maids)[i]
    {
      var maid := GetMaidById(id);
      if maid.Some? {
        var updated := maid.value.(isAvailable := Some(isAvailable));
        maids := maids[id - 1 := updated];
        r := Some(updated);
      } else {
        r := None;
      }
    }

    // ---- bookings ----

    function GetBookings(): (r: seq<Booking>)
      reads this
      requires Valid()
      ensures |r| == |bookings|
      ensures forall b :: b in r <==> b in bookings
      ensures forall i :: 0 <= i < |r| ==> r[i].id == i + 1
    {
      bookings
    }

    function GetBookingById(id: int): (r: Option<Booking>)
      reads this
      requires Valid()
      ensures r.Some? ==> r.value in bookings && r.value.id == id
      ensures r.None? ==> forall b :: b in bookings ==> b.id != id
    {
      if 1 <= id <= |bookings| then Some(bookings[id - 1]) else None
    }

    function GetBookingsByUserId(userId: int): (r: seq<Booking>)
      reads this
      requires Valid()
      ensures forall b :: b in r <==> b in bookings && b.userId == userId
      ensures forall i, j :: 0 <= i < j < |r| ==> r[i].id < r[j].id
    {
      var p := (b: Booking) => b.userId == userId;
      var key := (b: Booking) => b.id;
      assert IncreasingBy(bookings, key);
      FilterKeepsOrder(bookings, p, key);
      var r := Filter(bookings, p);
      assert forall i :: 0 <= i < |r| ==> key(r[i]) == r[i].id;
      assert IncreasingBy(r, key);
      r
    }

    function GetBookingsByMaidId(maidId: int): (r: seq<Booking>)
      reads this
      requires Valid()
      ensures forall b :: b in r <==> b in bookings && b.maidId == maidId
      ensures forall i, j :: 0 <= i < j < |r| ==> r[i].id < r[j].id
    {
      var p := (b: Booking) => b.maidId == maidId;
      var key := (b: Booking) => b.id;
      assert IncreasingBy(bookings, key);
      FilterKeepsOrder(bookings, p, key);
      var r := Filter(bookings, p);
      assert forall i :: 0 <= i < |r| ==> key(r[i]) == r[i].id;
      assert IncreasingBy(r, key);
      r
    }

    /** Stores a new booking under the next booking id, always "pending"; absent notes are null. */
    method CreateBooking(input: InsertBooking, now: Timestamp) returns (booking: Booking)
      requires Valid()
      modifies this`bookings, this`currentBookingId
      ensures Valid()
      ensures booking.id == old(currentBookingId) && currentBookingId == old(currentBookingId) + 1
      ensures forall b :: b in old(bookings) ==> b.id < booking.id
      ensures booking.userId == input.userId && booking.maidId == input.maidId
      ensures booking.serviceType == input.serviceType && booking.address == input.address
      ensures booking.bookingDate == input.bookingDate && booking.bookingTime == input.bookingTime
      ensures booking.status == "pending" && booking.notes == input.notes
      ensures booking.createdAt == now
      ensures bookings == old(bookings) + [booking]
      ensures GetBookingById(booking.id) == Some(booking)
    {
      var id := currentBookingId;
      currentBookingId := currentBookingId + 1;
      booking := Booking(id, input.userId, input.maidId, input.serviceType, input.bookingDate,
        input.bookingTime, input.address, "pending", input.notes, now);
      bookings := bookings + [booking];
    }

    /** Sets the status of one booking to any string; an unknown id changes nothing. */
    method UpdateBookingStatus(id: int, status: string) returns (r: Option<Booking>)
      requires Valid()
      modifies this`bookings
      ensures Valid()
      ensures r.None? <==> old(GetBookingById(id)).None?
      ensures r.None? ==> bookings == old(bookings)
      ensures r.Some? ==> r.value == old(GetBookingById(id)).value.(status := status)
      ensures r.Some? ==> |bookings| == |old(bookings)| && bookings[id - 1] == r.value
      ensures forall i :: 0 <= i < |old(bookings)| && i != id - 1 ==> i < |bookings| && bookings[i] == old(bookings)[i]
    {
      var booking := GetBookingById(id);
      if booking.Some? {
        var updated := booking.value.(status := status);
        bookings := bookings[id - 1 := updated];
        r := Some(updated);
      } else {
        r := None;
      }
    }

    // ---- company settings ----

    function GetCompanySettings(): (r: Option<CompanySettings>)
      reads this
      requires Valid()
      ensures r == companySettings
      ensures r.Some? ==> r.value.id == 1
    {
      companySettings
    }

    /**
     * Upserts the single settings record: it ends with id 1, every field taken
     * from the input, optional fields omitted from the input null even if they
     * were set before, and `updatedAt` the current time.
     */
    method CreateOrUpdateCompanySettings(input: InsertCompanySettings, now: Timestamp) returns (r: CompanySettings)
      requires Valid()
      modifies this`companySettings
      ensures Valid()
      ensures companySettings == Some(r)
      ensures r.id == 1
      ensures r.companyName == input.companyName && r.contactEmail == input.contactEmail
      ensures r.contactPhone == input.contactPhone && r.address == input.address
      ensures r.logo == input.logo && r.servicesOffered == input.servicesOffered
      ensures r.operatingHours == input.operatingHours
      ensures r.updatedAt == now
    {
      var logo := input.logo;
      var servicesOffered := input.servicesOffered;
      var operatingHours := input.operatingHours;
      if companySettings.Some? {
        companySettings := Some(companySettings.value.(
          companyName := input.companyName, contactEmail := input.contactEmail,
          contactPhone := input.contactPhone, address := input.address,
          logo := logo, servicesOffered := servicesOffered, operatingHours := operatingHours,
          updatedAt := now));
      } else {
        companySettings := Some(CompanySettings(1, input.companyName, input.contactEmail,
          input.contactPhone, input.address, logo, servicesOffered, operatingHours, now));
      }
      r := companySettings.value;
    }
  }

  /** The city filter ignores the case of its argument: any spelling finds the same maids. */
  lemma CityQueryIgnoresCase(store: MemStorage, city: string)
    requires store.Valid()
    ensures store.GetMaidsByCity(city) == store.GetMaidsByCity(JsString.ToLowerCase(city))
  {
    JsString.ToLowerCaseIdempotent(city);
    FilterSamePredicate(store.maids, (m: Maid) => SameIgnoringCase(m.city, city),
      (m: Maid) => SameIgnoringCase(m.city, JsString.ToLowerCase(city)));
  }

  /** The locality filter ignores the case of its argument: any spelling finds the same maids. */
  lemma LocalityQueryIgnoresCase(store: MemStorage, locality: string)
    requires store.Valid()
    ensures store.GetMaidsByLocality(locality) == store.GetMaidsByLocality(JsString.ToLowerCase(locality))
  {
    JsString.ToLowerCaseIdempotent(locality);
    FilterSamePredicate(store.maids, (m: Maid) => SameIgnoringCase(m.locality, locality),
      (m: Maid) => SameIgnoringCase(m.locality, JsString.ToLowerCase(locality)));
  }

  /** On a freshly constructed store the first registered maid gets id 11. */
  method FirstRegisteredMaid(adminPasswordHash: string, t0: Timestamp, input: InsertMaid, t1: Timestamp)
    returns (maid: Maid)
    ensures maid.id == 11 && maid.isAvailable == Some(true)
  {
    var store := new MemStorage(adminPasswordHash, t0);
    maid := store.CreateMaid(input, t1);
  }

  /** Two upserts of the same input differ only in `updatedAt`. */
  method UpsertTwice(store: MemStorage, input: InsertCompanySettings, t1: Timestamp, t2: Timestamp)
    returns (first: CompanySettings, second: CompanySettings)
    requires store.Valid()
    modifies store`companySettings
    ensures second == first.(updatedAt := t2)
  {
    first := store.CreateOrUpdateCompanySettings(input, t1);
    second := store.CreateOrUpdateCompanySettings(input, t2);
  }

  /** The seeded maids occupy ids 1 to 10, all available, with the seed data verbatim. */
  lemma SeededMaidsIds()
    ensures var s := SeededMaids(1, 10);
      && |s| == 10
      && forall i :: 0 <= i < 10 ==> s[i].id == i + 1 && s[i].isAvailable == Some(true)
                                     && s[i].email == SampleMaids[i].email
  {
  }
}
