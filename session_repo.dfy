/**
 * PosSessionRepository.session_find_active (abc_pos/repo/pos_session_repo.py):
 * one filtered query over the POS Session table, newest first, limit 1,
 * projecting five fields.  The table is a sequence of records; a failing
 * query is an error value that the repository hands back unchanged.
 */
module SessionRepo {
  import opened Results

  /** session_status of a POS Session. */
  datatype Status = Open | Closed

  /** A row of the POS Session table.  `creation` is the creation timestamp. */
  datatype Session = Session(
    name: string,
    createdBy: string,
    posProfile: string,
    status: Status,
    openingEntry: string,
    closingEntry: Option<string>,
    creation: nat)

  /** The five projected fields: name, pos_profile, session_status,
      opening_entry, closing_entry. */
  datatype SessionView = SessionView(
    name: string,
    posProfile: string,
    status: Status,
    openingEntry: string,
    closingEntry: Option<string>)

  /** The filter dictionary: each present entry must hold with equality. */
  datatype Filters = Filters(status: Option<Status>, createdBy: Option<string>, posProfile: Option<string>)

  predicate Matches(f: Filters, s: Session) {
    && (f.status.Some? ==> s.status == f.status.value)
    && (f.createdBy.Some? ==> s.createdBy == f.createdBy.value)
    && (f.posProfile.Some? ==> s.posProfile == f.posProfile.value)
  }

  function View(s: Session): (v: SessionView)
    ensures v.name == s.name && v.posProfile == s.posProfile && v.status == s.status
    ensures v.openingEntry == s.openingEntry && v.closingEntry == s.closingEntry
  {
    SessionView(s.name, s.posProfile, s.status, s.openingEntry, s.closingEntry)
  }

  /** The first row of the matches ordered by creation descending.  Rows with
      equal creation keep table order. */
  function Newest(rows: seq<Session>, f: Filters): (r: Option<Session>)
    ensures r.None? <==> forall k :: 0 <= k < |rows| ==> !Matches(f, rows[k])
    ensures r.Some? ==> r.value in rows && Matches(f, r.value)
    ensures r.Some? ==> forall k :: 0 <= k < |rows| && Matches(f, rows[k]) ==> rows[k].creation <= r.value.creation
  {
    if rows == [] then None
    else
      var best := Newest(rows[..|rows| - 1], f);
      var last := rows[|rows| - 1];
      assert forall k :: 0 <= k < |rows| - 1 ==> rows[k] == rows[..|rows| - 1][k];
      if !Matches(f, last) then best
      else if best.None? || last.creation > best.value.creation then Some(last)
      else best
  }

  /** session_find_active(filters).  `db` is the outcome of the query: the
      table, or the message of the exception the query raised. */
  function FindActive(db: Result<seq<Session>, string>, f: Filters): (r: Result<Option<SessionView>, string>)
    ensures db.Err? ==> r == Err(db.error)
    ensures db.Ok? ==> r.Ok?
    ensures db.Ok? ==> (r.value.None? <==> forall k :: 0 <= k < |db.value| ==> !Matches(f, db.value[k]))
    ensures db.Ok? && r.value.Some? ==> exists k :: (0 <= k < |db.value| && Matches(f, db.value[k]) &&
      r.value.value == View(db.value[k]) &&
      forall k' :: 0 <= k' < |db.value| && Matches(f, db.value[k']) ==> db.value[k'].creation <= db.value[k].creation)
  {
    match db
    case Err(message) => Err(message)
    case Ok(rows) =>
      match Newest(rows, f)
      case None => Ok(None)
      case Some(s) => Ok(Some(View(s)))
  }
}
