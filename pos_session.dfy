/**
 * POS session endpoints (abc_pos/api/pos_session.py) over the tables they
 * read and write: POS Session, POS Opening Entry, POS Closing Entry and POS
 * Invoice.  The session user, the default company, today's date and the
 * names the framework gives new documents are parameters; a new session's
 * creation time is the table's clock.  A request that raises changes no
 * table: the framework rolls its transaction back.
 */
module PosSession {
  import opened Results
  import opened SessionRepo

  /** A balance_details row of an opening entry. */
  datatype BalanceRow = BalanceRow(modeOfPayment: string, amount: real)

  datatype OpeningEntry = OpeningEntry(
    name: string,
    user: string,
    posProfile: string,
    company: string,
    openingAmount: real,
    postingDate: string,
    periodStartDate: string,
    balanceDetails: seq<BalanceRow>,
    submitted: bool)

  datatype ClosingEntry = ClosingEntry(
    name: string,
    posOpeningEntry: string,
    user: string,
    posProfile: string,
    company: string,
    closingAmount: real,
    postingDate: string,
    submitted: bool)

  /** A row of the POS Invoice table with the fields session_invoice_list returns. */
  datatype InvoiceRow = InvoiceRow(
    name: string,
    customer: string,
    grandTotal: real,
    paidAmount: real,
    status: string,
    tableNumber: string,
    roomNumber: string,
    postingDate: string,
    creation: nat,
    posSession: string)

  datatype SessionError =
    | AlreadyOpen          // "There is already an open session for this user and POS Profile"
    | DuplicateName        // insert() of a document whose name is taken
    | NotFound             // get_doc / exists on an unknown session
    | NotOpen              // "Session is not open."
    | SessionIdRequired    // "POS Session ID is required."

  datatype Listing = Listing(count: nat, orders: seq<InvoiceRow>)

  /** The filter of session_find_active: status Open and the user, any profile. */
  function ActiveFilter(user: string): Filters {
    Filters(Some(Open), Some(user), None)
  }

  /** `company or default`. */
  function CompanyOr(company: Option<string>, default: string): (c: string)
    ensures company.Some? && company.value != "" ==> c == company.value
    ensures !(company.Some? && company.value != "") ==> c == default
  {
    if company.Some? && company.value != "" then company.value else default
  }

  /** The invoices of a session, in table order. */
  function InvoicesOf(rows: seq<InvoiceRow>, sessionId: string): (r: seq<InvoiceRow>)
    ensures forall o :: o in r <==> o in rows && o.posSession == sessionId
    ensures |r| <= |rows|
  {
    if rows == [] then []
    else
      var last := rows[|rows| - 1];
      assert rows == rows[..|rows| - 1] + [last];
      InvoicesOf(rows[..|rows| - 1], sessionId) + (if last.posSession == sessionId then [last] else [])
  }

  /** A session appended with a later creation than every row and matching
      the filter is the one the repository returns. */
  lemma {:induction false} NewestAppended(rows: seq<Session>, s: Session, f: Filters)
    requires Matches(f, s)
    requires forall k :: 0 <= k < |rows| ==> rows[k].creation < s.creation
    ensures Newest(rows + [s], f) == Some(s)
  {
    var all := rows + [s];
    assert all[..|all| - 1] == rows;
    var best := Newest(rows, f);
    if best.Some? {
      var k :| 0 <= k < |rows| && rows[k] == best.value;
    }
  }

  /** The session table's invariant: distinct names, at most one Open session
      per (user, profile), creation times below the clock, and a closing
      entry exactly on the Closed sessions. */
  ghost predicate ValidSessions(sessions: seq<Session>, clock: nat)
  {
    && (forall i, j :: 0 <= i < j < |sessions| ==> sessions[i].name != sessions[j].name)
    && (forall i, j :: 0 <= i < j < |sessions| && sessions[i].status == Open && sessions[j].status == Open ==>
          sessions[i].createdBy != sessions[j].createdBy || sessions[i].posProfile != sessions[j].posProfile)
    && (forall i :: 0 <= i < |sessions| ==> sessions[i].creation < clock)
    && (forall i :: 0 <= i < |sessions| ==> (sessions[i].status == Closed <==> sessions[i].closingEntry.Some?))
  }

  /** session_find_active over a session table. */
  function ActiveIn(sessions: seq<Session>, user: string): (r: Option<SessionView>)
    ensures r.None? <==> forall k :: 0 <= k < |sessions| ==> !(sessions[k].status == Open && sessions[k].createdBy == user)
    ensures r.Some? ==> exists k :: (0 <= k < |sessions| && sessions[k].status == Open &&
      sessions[k].createdBy == user && r.value == View(sessions[k]) &&
      forall k' :: 0 <= k' < |sessions| && sessions[k'].status == Open && sessions[k'].createdBy == user ==>
        sessions[k'].creation <= sessions[k].creation)
  {
    var found := SessionRepo.FindActive(Ok(sessions), ActiveFilter(user));
    assert found.Ok?;
    found.value
  }

  /** Some session of `user` on `posProfile` is Open. */
  predicate OpenFor(sessions: seq<Session>, user: string, posProfile: string) {
    exists k :: 0 <= k < |sessions| && sessions[k].createdBy == user &&
      sessions[k].posProfile == posProfile && sessions[k].status == Open
  }

  predicate NameTaken(sessions: seq<Session>, name: string) {
    exists k :: 0 <= k < |sessions| && sessions[k].name == name
  }

  /** Opening a session for a (user, profile) with no Open session keeps the
      invariant. */
  lemma OpenKeepsValid(sessions: seq<Session>, clock: nat, s: Session)
    requires ValidSessions(sessions, clock)
    requires s.status == Open && s.closingEntry.None? && s.creation == clock
    requires !NameTaken(sessions, s.name) && !OpenFor(sessions, s.createdBy, s.posProfile)
    ensures ValidSessions(sessions + [s], clock + 1)
  {
    var all := sessions + [s];
    forall i, j | 0 <= i < j < |all|
      ensures all[i].name != all[j].name
      ensures all[i].status == Open && all[j].status == Open ==>
        all[i].createdBy != all[j].createdBy || all[i].posProfile != all[j].posProfile
    {
      if j == |sessions| {
        assert all[i] == sessions[i];
      }
    }
  }

  /** Closing an Open session keeps the invariant. */
  lemma CloseKeepsValid(sessions: seq<Session>, clock: nat, k: nat, entryName: string)
    requires ValidSessions(sessions, clock) && k < |sessions| && sessions[k].status == Open
    ensures ValidSessions(sessions[k := sessions[k].(status := Closed, closingEntry := Some(entryName))], clock)
  {
  }

  /** The newly opened session is the one session_find_active returns for its user. */
  lemma OpenedIsActive(sessions: seq<Session>, clock: nat, s: Session)
    requires ValidSessions(sessions, clock)
    requires s.status == Open && s.creation == clock
    ensures ActiveIn(sessions + [s], s.createdBy) == Some(View(s))
  {
    NewestAppended(sessions, s, ActiveFilter(s.createdBy));
  }

  class SessionTable {
    var sessions: seq<Session>
    var openingEntries: seq<OpeningEntry>
    var closingEntries: seq<ClosingEntry>
    var invoices: seq<InvoiceRow>
    var clock: nat

    ghost predicate Valid()
      reads this
    {
      ValidSessions(sessions, clock)
    }

    constructor (invoices: seq<InvoiceRow>)
      ensures Valid()
      ensures sessions == [] && openingEntries == [] && closingEntries == [] && this.invoices == invoices
    {
      sessions, openingEntries, closingEntries := [], [], [];
      this.invoices := invoices;
      clock := 0;
    }

    predicate HasOpen(user: string, posProfile: string)
      reads this
    {
      OpenFor(sessions, user, posProfile)
    }

    predicate SessionNamed(name: string)
      reads this
    {
      NameTaken(sessions, name)
    }

    predicate OpeningNamed(name: string)
      reads this
    {
      exists k :: 0 <= k < |openingEntries| && openingEntries[k].name == name
    }

    predicate ClosingNamed(name: string)
      reads this
    {
      exists k :: 0 <= k < |closingEntries| && closingEntries[k].name == name
    }

    /** session_find_active for `user` (pos_session.py:40-51). */
    function SessionFindActive(user: string): (r: Option<SessionView>)
      reads this
      ensures r.None? <==> forall k :: 0 <= k < |sessions| ==> !(sessions[k].status == Open && sessions[k].createdBy == user)
      ensures r.Some? ==> exists k :: (0 <= k < |sessions| && sessions[k].status == Open &&
        sessions[k].createdBy == user && r.value == View(sessions[k]) &&
        forall k' :: 0 <= k' < |sessions| && sessions[k'].status == Open && sessions[k'].createdBy == user ==>
          sessions[k'].creation <= sessions[k].creation)
    {
      ActiveIn(sessions, user)
    }

    /** session_open (pos_session.py:54-104). */
    method SessionOpen(user: string, posProfile: string, company: Option<string>, defaultCompany: string,
                openingCash: real, today: string, entryName: string, sessionName: string)
      returns (r: Result<(string, string), SessionError>)
      requires Valid()
      modifies this
      ensures Valid()
      ensures r == Err(AlreadyOpen) <==> old(HasOpen(user, posProfile))
      ensures r.Err? ==> r.error == AlreadyOpen || r.error == DuplicateName
      ensures r.Err? ==> sessions == old(sessions) && openingEntries == old(openingEntries) &&
                         closingEntries == old(closingEntries) && clock == old(clock)
      ensures r.Ok? <==> !old(HasOpen(user, posProfile)) && !old(OpeningNamed(entryName)) && !old(SessionNamed(sessionName))
      ensures r.Ok? ==> r.value == (sessionName, entryName)
      ensures r.Ok? ==> sessions == old(sessions) + [Session(sessionName, user, posProfile, Open, entryName, None, old(clock))]
      ensures r.Ok? ==> (openingEntries == old(openingEntries) +
        [OpeningEntry(entryName, user, posProfile, CompanyOr(company, defaultCompany), openingCash, today, today,
                      [BalanceRow("Cash", openingCash)], true)])
      ensures r.Ok? ==> closingEntries == old(closingEntries) && clock == old(clock) + 1
      ensures invoices == old(invoices)
    {
      var company' := CompanyOr(company, defaultCompany);
      if HasOpen(user, posProfile) {
        return Err(AlreadyOpen);
      }
      if OpeningNamed(entryName) || SessionNamed(sessionName) {
        return Err(DuplicateName);
      }
      var entry := OpeningEntry(entryName, user, posProfile, company', openingCash, today, today,
                                [BalanceRow("Cash", openingCash)], true);
      var session := Session(sessionName, user, posProfile, Open, entryName, None, clock);
      OpenKeepsValid(sessions, clock, session);
      sessions, openingEntries, clock := sessions + [session], openingEntries + [entry], clock + 1;
      r := Ok((sessionName, entryName));
    }

    /** sesison_close (pos_session.py:107-134). */
    method SessionClose(sessionName: string, closingCash: real, defaultCompany: string, today: string, entryName: string)
      returns (r: Result<(string, string), SessionError>)
      requires Valid()
      modifies this
      ensures Valid()
      ensures r == Err(NotFound) <==> !old(SessionNamed(sessionName))
      ensures r.Err? ==> r.error == NotFound || r.error == NotOpen || r.error == DuplicateName
      ensures r.Err? ==> sessions == old(sessions) && openingEntries == old(openingEntries) &&
                         closingEntries == old(closingEntries) && clock == old(clock)
      ensures r.Ok? ==> r.value == (sessionName, entryName)
      ensures r.Ok? ==> exists k :: (0 <= k < |old(sessions)| && old(sessions)[k].name == sessionName &&
        old(sessions)[k].status == Open &&
        sessions == old(sessions)[k := old(sessions)[k].(status := Closed, closingEntry := Some(entryName))] &&
        closingEntries == old(closingEntries) +
          [ClosingEntry(entryName, old(sessions)[k].openingEntry, old(sessions)[k].createdBy,
                        old(sessions)[k].posProfile, defaultCompany, closingCash, today, true)])
      ensures r == Err(NotOpen) <==> exists k :: (0 <= k < |old(sessions)| && old(sessions)[k].name == sessionName &&
        old(sessions)[k].status != Open)
      ensures r.Ok? <==> (exists k :: (0 <= k < |old(sessions)| && old(sessions)[k].name == sessionName &&
        old(sessions)[k].status == Open)) && !old(ClosingNamed(entryName))
      ensures r.Ok? ==> openingEntries == old(openingEntries) && clock == old(clock)
      ensures invoices == old(invoices)
    {
      var k := 0;
      while k < |sessions| && sessions[k].name != sessionName
        invariant 0 <= k <= |sessions|
        invariant forall j :: 0 <= j < k ==> sessions[j].name != sessionName
      {
        k := k + 1;
      }
      if k == |sessions| {
        return Err(NotFound);
      }
      var session := sessions[k];
      assert forall j :: 0 <= j < |sessions| && sessions[j].name == sessionName ==> j == k;
      if session.status != Open {
        return Err(NotOpen);
      }
      if ClosingNamed(entryName) {
        return Err(DuplicateName);
      }
      var entry := ClosingEntry(entryName, session.openingEntry, session.createdBy, session.posProfile,
                                defaultCompany, closingCash, today, true);
      closingEntries := closingEntries + [entry];
      CloseKeepsValid(sessions, clock, k, entryName);
      sessions := sessions[k := session.(status := Closed, closingEntry := Some(entryName))];
      r := Ok((sessionName, entryName));
    }

    /** session_invoice_list (pos_session.py:137-163). */
    function InvoiceList(sessionId: string): (r: Result<Listing, SessionError>)
      reads this
      ensures sessionId == "" ==> r == Err(SessionIdRequired)
      ensures sessionId != "" && !SessionNamed(sessionId) ==> r == Err(NotFound)
      ensures r.Ok? ==> sessionId != "" && SessionNamed(sessionId)
      ensures r.Ok? ==> r.value.count == |r.value.orders|
      ensures r.Ok? ==> forall o :: o in r.value.orders <==> o in invoices && o.posSession == sessionId
    {
      if sessionId == "" then Err(SessionIdRequired)
      else if !SessionNamed(sessionId) then Err(NotFound)
      else
        var orders := InvoicesOf(invoices, sessionId);
        Ok(Listing(|orders|, orders))
    }
  }
}
