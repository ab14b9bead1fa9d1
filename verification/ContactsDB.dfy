/** The contact books and their reverse index (contacts_server/contacts_db.cc:66-123,
    175-271). The three LevelDB databases are maps; serialization is left out. */
module ContactsDB {
  import opened Common

  datatype Contact = Contact(phoneKey: string, name: string)

  datatype Book = Book(myself: Contact, contacts: seq<Contact>)

  /** Books by uid, owner uid by phone, and for each phone the uids whose uploads
      contained it. */
  datatype Database = Database(books: map<string, Book>, owners: map<string, string>, index: map<string, set<string>>)

  const EMPTY := Database(map[], map[], map[])

  // ---------------------------------------------------------------- std::set<string>

  ghost predicate Least(x: string, s: set<string>) {
    x in s && forall y :: y in s && y != x ==> Less(x, y)
  }

  lemma {:induction false} LeastExists(s: set<string>)
    requires s != {}
    ensures exists x :: Least(x, s)
  {
    var x :| x in s;
    if s == {x} {
      assert Least(x, s);
    } else {
      LeastExists(s - {x});
      var y :| Least(y, s - {x});
      LessIsTotal(x, y);
      if Less(x, y) {
        forall z | z in s && z != x ensures Less(x, z) {
          if z != y {
            LessIsTransitive(x, y, z);
          }
        }
        assert Least(x, s);
      } else {
        assert Least(y, s);
      }
    }
  }

  ghost predicate Ascending(xs: seq<string>) {
    forall i, j :: 0 <= i < j < |xs| ==> Less(xs[i], xs[j])
  }

  function Elements(xs: seq<string>): set<string> {
    set x | x in xs
  }

  /** An index item holds no uid twice. */
  lemma AscendingIsDuplicateFree(xs: seq<string>)
    requires Ascending(xs)
    ensures forall i, j :: 0 <= i < j < |xs| ==> xs[i] != xs[j]
  {
    forall i, j | 0 <= i < j < |xs| ensures xs[i] != xs[j] {
      LessIsTotal(xs[i], xs[j]);
    }
  }

  // ---------------------------------------------------------------- operations

  function UidsFor(db: Database, phone: string): set<string> {
    if phone in db.index then db.index[phone] else {}
  }

  function CreateUser(db: Database, uid: string, contact: Contact): Database {
    db.(books := db.books[uid := Book(contact, [])], owners := db.owners[contact.phoneKey := uid])
  }

  /** The index after the first n contacts of an upload. */
  function Indexed(index: map<string, set<string>>, uid: string, contacts: seq<Contact>, n: nat): map<string, set<string>>
    requires n <= |contacts|
  {
    if n == 0 then index else
      var before := Indexed(index, uid, contacts, n - 1);
      var phone := contacts[n - 1].phoneKey;
      before[phone := (if phone in before then before[phone] else {}) + {uid}]
  }

  function Upload(db: Database, uid: string, contacts: seq<Contact>): Database {
    if uid !in db.books then db else
      db.(books := db.books[uid := db.books[uid].(contacts := contacts)],
          index := Indexed(db.index, uid, contacts, |contacts|))
  }

  // ---------------------------------------------------------------- runs

  datatype Step = Create(uid: string, contact: Contact) | UploadContacts(uid: string, contacts: seq<Contact>)

  function Apply(db: Database, step: Step): Database {
    match step
    case Create(uid, contact) => CreateUser(db, uid, contact)
    case UploadContacts(uid, contacts) => Upload(db, uid, contacts)
  }

  function After(steps: seq<Step>): Database {
    if steps == [] then EMPTY else Apply(After(steps[..|steps| - 1]), steps[|steps| - 1])
  }

  ghost predicate Lists(contacts: seq<Contact>, phone: string) {
    exists k :: 0 <= k < |contacts| && contacts[k].phoneKey == phone
  }

  // ---------------------------------------------------------------- the steps' own words

  /** The contact of the last registration of a uid. */
  function Registered(steps: seq<Step>, uid: string): Option<Contact> {
    if steps == [] then None else
      var last := steps[|steps| - 1];
      if last.Create? && last.uid == uid then Some(last.contact) else Registered(steps[..|steps| - 1], uid)
  }

  /** The contacts of the last upload of a uid since its last registration. */
  function LastUpload(steps: seq<Step>, uid: string): seq<Contact> {
    if steps == [] then [] else
      match steps[|steps| - 1]
      case Create(u, _) => if u == uid then [] else LastUpload(steps[..|steps| - 1], uid)
      case UploadContacts(u, contacts) => if u == uid then contacts else LastUpload(steps[..|steps| - 1], uid)
  }

  /** The last uid registered with a phone. */
  function LastOwner(steps: seq<Step>, phone: string): Option<string> {
    if steps == [] then None else
      var last := steps[|steps| - 1];
      if last.Create? && last.contact.phoneKey == phone then Some(last.uid) else LastOwner(steps[..|steps| - 1], phone)
  }

  /** After any run a uid has a book exactly if it has registered; the book holds the contact
      of the last registration and the last upload since. */
  lemma {:induction false} BooksAreAsTold(steps: seq<Step>, uid: string)
    ensures uid in After(steps).books <==> Registered(steps, uid).Some?
    ensures uid in After(steps).books ==>
      After(steps).books[uid] == Book(Registered(steps, uid).value, LastUpload(steps, uid))
  {
    hide Indexed;
    if steps != [] {
      BooksAreAsTold(steps[..|steps| - 1], uid);
    }
  }

  lemma {:induction false} OwnersAreAsTold(steps: seq<Step>, phone: string)
    ensures phone in After(steps).owners <==> LastOwner(steps, phone).Some?
    ensures phone in After(steps).owners ==> After(steps).owners[phone] == LastOwner(steps, phone).value
  {
    hide Indexed;
    if steps != [] {
      OwnersAreAsTold(steps[..|steps| - 1], phone);
    }
  }

  /** Who ever uploaded the phone successfully: an upload fails for an unknown uid. */
  ghost function Uploaders(steps: seq<Step>, phone: string): set<string> {
    if steps == [] then {} else
      var before, last := steps[..|steps| - 1], steps[|steps| - 1];
      Uploaders(before, phone) +
      if last.UploadContacts? && Registered(before, last.uid).Some? && Lists(last.contacts, phone) then {last.uid} else {}
  }

  lemma {:induction false} IndexedUids(db: Database, uid: string, contacts: seq<Contact>, n: nat, phone: string)
    requires n <= |contacts|
    ensures UidsFor(db.(index := Indexed(db.index, uid, contacts, n)), phone)
         == UidsFor(db, phone) + if Lists(contacts[..n], phone) then {uid} else {}
  {
    if n > 0 {
      IndexedUids(db, uid, contacts, n - 1, phone);
      assert contacts[..n] == contacts[..n - 1] + [contacts[n - 1]];
      if Lists(contacts[..n - 1], phone) {
        var k :| 0 <= k < n - 1 && contacts[..n - 1][k].phoneKey == phone;
        assert contacts[..n][k].phoneKey == phone;
      }
      if contacts[n - 1].phoneKey == phone {
        assert contacts[..n][n - 1].phoneKey == phone;
      } else if Lists(contacts[..n], phone) {
        var k :| 0 <= k < n && contacts[..n][k].phoneKey == phone;
        assert contacts[..n - 1][k].phoneKey == phone;
      }
    }
  }

  /** After any run the index entry of a phone holds exactly the uids that ever
      uploaded it. */
  lemma {:induction false} IndexHoldsUploaders(steps: seq<Step>, phone: string)
    ensures UidsFor(After(steps), phone) == Uploaders(steps, phone)
  {
    if steps != [] {
      var before, last := steps[..|steps| - 1], steps[|steps| - 1];
      IndexHoldsUploaders(before, phone);
      BooksAreAsTold(before, last.uid);
      if last.UploadContacts? && last.uid in After(before).books {
        IndexedUids(After(before), last.uid, last.contacts, |last.contacts|, phone);
        assert last.contacts[..|last.contacts|] == last.contacts;
      }
    }
  }

  /** The brute-force answer: who has the phone in the present book. */
  ghost function Scan(db: Database, phone: string): set<string> {
    set uid | uid in db.books && Lists(db.books[uid].contacts, phone)
  }

  lemma {:induction false} ScanIsIndexed(steps: seq<Step>, phone: string)
    ensures Scan(After(steps), phone) <= Uploaders(steps, phone)
  {
    if steps != [] {
      var before, last := steps[..|steps| - 1], steps[|steps| - 1];
      ScanIsIndexed(before, phone);
      BooksAreAsTold(before, last.uid);
      forall uid | uid in Scan(After(steps), phone) ensures uid in Uploaders(steps, phone) {
        if last.uid != uid || (last.UploadContacts? && last.uid !in After(before).books) {
          assert uid in Scan(After(before), phone);
        }
      }
    }
  }

  /** The scan finds the registered uids whose last upload lists the phone. */
  lemma ScanIsAsTold(steps: seq<Step>, phone: string, uid: string)
    ensures uid in Scan(After(steps), phone) <==> Registered(steps, uid).Some? && Lists(LastUpload(steps, uid), phone)
  {
    hide After, Lists;
    BooksAreAsTold(steps, uid);
  }

  /** What FindContactsWithNewUser returns, as a set; it refuses the empty phone. */
  function Found(db: Database, phone: string): set<string> {
    if phone == "" then {} else UidsFor(db, phone)
  }

  /** The search finds everybody who ever uploaded the phone, but nobody for the empty one. */
  lemma FoundAreUploaders(steps: seq<Step>, phone: string)
    ensures Found(After(steps), phone) == if phone == "" then {} else Uploaders(steps, phone)
  {
    IndexHoldsUploaders(steps, phone);
  }

  /** The search misses nobody who has the phone now, except for the empty phone,
      which uploads accept but searches refuse. */
  lemma FindMissesNobodyIff(steps: seq<Step>, phone: string)
    ensures Scan(After(steps), phone) <= Found(After(steps), phone)
      <==> phone != "" || Scan(After(steps), "") == {}
  {
    ScanIsIndexed(steps, phone);
    IndexHoldsUploaders(steps, phone);
  }

  // ---------------------------------------------------------------- the code

  class DB {
    var open: bool
    var books: map<string, Book>
    var owners: map<string, string>
    var index: map<string, seq<string>>

    ghost predicate Valid()
      reads this
    {
      forall phone :: phone in index ==> Ascending(index[phone])
    }

    ghost function View(): Database
      reads this
    {
      Database(books, owners, IndexView(index))
    }

    static ghost function IndexView(items: map<string, seq<string>>): map<string, set<string>> {
      map phone | phone in items :: Elements(items[phone])
    }

    constructor ()
      ensures Valid() && !open && View() == EMPTY
    {
      open, books, owners, index := false, map[], map[], map[];
    }

    method OpenDatabase()
      modifies this`open
      ensures open
    {
      open := true;
    }

    method CreateNewUser(uid: string, contact: Contact) returns (ok: bool)
      requires Valid()
      modifies this
      ensures Valid() && ok == old(open) && open == old(open)
      ensures View() == if ok then CreateUser(old(View()), uid, contact) else old(View())
    {
      if !open {
        return false;
      }
      books := books[uid := Book(contact, [])];
      owners := owners[contact.phoneKey := uid];
      ok := true;
    }

    method FindContactsWithNewUser(contact: Contact) returns (ok: bool, uids: seq<string>)
      requires Valid()
      ensures Elements(uids) == if open then Found(View(), contact.phoneKey) else {}
      ensures Ascending(uids)
      ensures ok <==> open && contact.phoneKey != "" && contact.phoneKey in index
    {
      if !open || contact.phoneKey == "" || contact.phoneKey !in index {
        return false, [];
      }
      var item := index[contact.phoneKey];
      uids := [];
      var i := 0;
      while i < |item|
        invariant 0 <= i <= |item| && uids == item[..i]
      {
        uids := uids + [item[i]];
        i := i + 1;
      }
      ok := true;
    }

    /** Through std::set<string>, which is walked in ascending order. */
    method DuplicateRemove(item: seq<string>) returns (r: seq<string>)
      ensures Ascending(r) && Elements(r) == Elements(item)
    {
      var rest: set<string> := {};
      var i := 0;
      while i < |item|
        invariant 0 <= i <= |item| && rest == Elements(item[..i])
      {
        rest := rest + {item[i]};
        i := i + 1;
      }
      assert item[..|item|] == item;
      r := [];
      while rest != {}
        invariant Ascending(r) && Elements(r) + rest == Elements(item)
        invariant forall x, y :: x in r && y in rest ==> Less(x, y)
        decreases rest
      {
        LeastExists(rest);
        ghost var before := r;
        var x :| x in rest && forall y :: y in rest && y != x ==> Less(x, y);
        r := r + [x];
        rest := rest - {x};
        assert forall z :: z in r <==> z in before || z == x;
      }
    }

    method UploadOne(phone: string, uid: string)
      requires Valid()
      modifies this`index
      ensures Valid()
      ensures IndexView(index) == IndexView(old(index))[phone := (if phone in old(index) then Elements(old(index)[phone]) else {}) + {uid}]
    {
      if phone !in index {
        index := index[phone := [uid]];
        assert Elements([uid]) == {uid} == {} + {uid};
      } else {
        var item := index[phone] + [uid];
        assert Elements(item) == Elements(index[phone]) + {uid};
        var unique := DuplicateRemove(item);
        index := index[phone := unique];
      }
    }

    method UploadContacts(uid: string, contacts: seq<Contact>) returns (ok: bool)
      requires Valid() && open
      modifies this
      ensures Valid() && open && (ok <==> uid in old(books))
      ensures View() == Upload(old(View()), uid, contacts)
    {
      if uid !in books {
        return false;
      }
      ghost var before := View();
      books := books[uid := books[uid].(contacts := contacts)];
      var i := 0;
      while i < |contacts|
        invariant 0 <= i <= |contacts| && Valid() && open
        invariant owners == old(owners) && books == old(books)[uid := old(books)[uid].(contacts := contacts)]
        invariant IndexView(index) == Indexed(before.index, uid, contacts, i)
      {
        UploadOne(contacts[i].phoneKey, uid);
        i := i + 1;
      }
      ok := true;
    }
  }
}
