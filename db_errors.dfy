/** The backend's insert helper: add a row to the database session, commit, and turn a database
    error into a JSON reply for the frontend, classifying constraint violations by the text of
    the driver's error. */
module DbErrors {
  import opened Wrappers
  import opened Json
  import opened Text

  // ---------------------------------------------------------------- errors

  /** The SQLAlchemy exception classes the helper names, and everything else. */
  datatype ErrorClass =
    | IntegrityError
    | DataError
    | OperationalError
    | OtherStatementError
    | InvalidRequestError
    | OtherError

  /** SQLAlchemy derives `IntegrityError`, `DataError` and `OperationalError` (through
      `DBAPIError`) from `StatementError`; `InvalidRequestError` is not a statement error. */
  predicate IsStatementError(c: ErrorClass)
  {
    c.IntegrityError? || c.DataError? || c.OperationalError? || c.OtherStatementError?
  }

  /** An exception out of the session: its class, `str(err.orig)` (which statement errors carry,
      as `"None"` when there is no driver error), and `str(err)`. */
  datatype DbFault = DbFault(errorClass: ErrorClass, orig: string, text: string)

  // ---------------------------------------------------------------- classification

  datatype Violation = Unique | NotNull | ForeignKey | Check | Exclusion | InvalidText | Unhandled

  /** The driver class name each violation is recognised by, and its place in the order the
      helper tests them. */
  function Marker(v: Violation): string
  {
    match v
    case Unique => "UniqueViolation"
    case NotNull => "NotNullViolation"
    case ForeignKey => "ForeignKeyViolation"
    case Check => "CheckViolation"
    case Exclusion => "ExclusionViolation"
    case InvalidText => "InvalidTextRepresentation"
    case Unhandled => ""
  }

  function Rank(v: Violation): nat
  {
    match v
    case Unique => 0
    case NotNull => 1
    case ForeignKey => 2
    case Check => 3
    case Exclusion => 4
    case InvalidText => 5
    case Unhandled => 6
  }

  /** The chain of `find` tests on the driver's error text. */
  function Classify(details: string): Violation
  {
    if Contains(details, "UniqueViolation") then Unique
    else if Contains(details, "NotNullViolation") then NotNull
    else if Contains(details, "ForeignKeyViolation") then ForeignKey
    else if Contains(details, "CheckViolation") then Check
    else if Contains(details, "ExclusionViolation") then Exclusion
    else if Contains(details, "InvalidTextRepresentation") then InvalidText
    else Unhandled
  }

  /** The chosen violation is named in the text, no earlier one in the order is, and the error
      is unhandled exactly when none is. */
  lemma ClassifyFirstMarker(details: string)
    ensures var v := Classify(details);
      && (v != Unhandled ==> Contains(details, Marker(v)))
      && (forall w :: w != Unhandled && Rank(w) < Rank(v) ==> !Contains(details, Marker(w)))
      && (v == Unhandled <==> forall w :: w != Unhandled ==> !Contains(details, Marker(w)))
  {
    var v := Classify(details);
    forall w | w != Unhandled && Rank(w) < Rank(v) ensures !Contains(details, Marker(w)) {
    }
  }

  function Message(v: Violation): string
  {
    match v
    case Unique => IntegrityPrefix + "unique constraint"
    case NotNull => IntegrityPrefix + "not-null constraint"
    case ForeignKey => IntegrityPrefix + "foreign key constraint"
    case Check => IntegrityPrefix + "check constraint"
    case Exclusion => IntegrityPrefix + "exclusion constraint"
    case InvalidText => IntegrityPrefix + "Invalid or incomplete data type conversion"
    case Unhandled => GenericMessage
  }

  /** The words every constraint message starts with. */
  const IntegrityPrefix: string := "Integrity constraint error caused by "

  const GenericMessage: string := "An unhandled exception occured please check details."

  /** Every kind of violation gets its own message, so the frontend can tell them apart. */
  lemma MessagesDistinct(v: Violation, w: Violation)
    requires v != w
    ensures Message(v) != Message(w)
  {
    // the six constraint messages end differently and the generic message is shorter than all
    if v != Unhandled && w != Unhandled {
      var m, n := Message(v), Message(w);
      assert m[|IntegrityPrefix|..] != n[|IntegrityPrefix|..];
    }
  }

  // ---------------------------------------------------------------- regex search

  /** Where the lazy group `(.*?)` followed by `close` ends in `t`: the first `close`, provided no
      newline comes before it (`.` does not match a newline). */
  function GroupEnd(t: string, close: char): (r: Option<nat>)
    ensures r.Some? ==> r.value < |t| && t[r.value] == close && close !in t[..r.value] && '\n' !in t[..r.value]
    ensures r.None? ==> forall j :: 0 <= j < |t| && t[j] == close ==> '\n' in t[..j] || close in t[..j]
  {
    if t == [] then None
    else if t[0] == close then Some(0)
    else if t[0] == '\n' then None
    else
      match GroupEnd(t[1..], close)
      case None => (assert forall j :: 1 <= j < |t| ==> t[1..][..j - 1] == t[1..j]; None)
      case Some(j) => (assert t[..j + 1] == [t[0]] + t[1..][..j]; Some(j + 1))
  }

  /** The group of a match starting at the first character of `s`. */
  function MatchHere(s: string, open: string, close: char): Option<string>
  {
    if |open| <= |s| && s[..|open|] == open then
      match GroupEnd(s[|open|..], close)
      case None => None
      case Some(j) => Some(s[|open|..][..j])
    else None
  }

  /** `re.search(open + "(.*?)" + close, s).group(1)`: the group of the leftmost match. */
  function Search(s: string, open: string, close: char): Option<string>
    decreases |s|
  {
    if s == [] then None
    else match MatchHere(s, open, close)
      case Some(g) => Some(g)
      case None => Search(s[1..], open, close)
  }

  /** `w` occurs in `s` at position `i`. */
  predicate OccursAt(s: string, i: nat, w: string)
  {
    i + |w| <= |s| && s[i..i + |w|] == w
  }

  /** A found group sits between `open` and `close` in the text, and holds neither `close`
      nor a newline. */
  lemma {:induction false} SearchSound(s: string, open: string, close: char)
    requires Search(s, open, close).Some?
    ensures var g := Search(s, open, close).value;
      && close !in g && '\n' !in g
      && exists i: nat :: OccursAt(s, i, open + g + [close])
  {
    var g := Search(s, open, close).value;
    if MatchHere(s, open, close).Some? {
      var j := GroupEnd(s[|open|..], close).value;
      assert |g| == j;
      assert s[0..|open| + |g| + 1] == open + g + [close];
      assert OccursAt(s, 0, open + g + [close]);
    } else {
      SearchSound(s[1..], open, close);
      var i: nat :| OccursAt(s[1..], i, open + g + [close]);
      assert s[i + 1..i + 1 + |open + g + [close]|] == s[1..][i..i + |open + g + [close]|];
      assert OccursAt(s, i + 1, open + g + [close]);
    }
  }

  /** The pattern matches at no position before `i`. */
  predicate NoMatchBefore(s: string, i: nat, open: string, close: char)
    requires i <= |s|
  {
    forall k :: 0 <= k < i ==> MatchHere(s[k..], open, close).None?
  }

  /** `re.search` scans left to right: a found group is that of the leftmost position where the
      pattern matches. */
  lemma {:induction false} SearchLeftmost(s: string, open: string, close: char)
    requires Search(s, open, close).Some?
    ensures exists i ::
      && 0 <= i < |s|
      && MatchHere(s[i..], open, close) == Search(s, open, close)
      && NoMatchBefore(s, i, open, close)
  {
    if MatchHere(s, open, close).Some? {
      assert s[0..] == s;
      assert NoMatchBefore(s, 0, open, close);
    } else {
      var r := Search(s, open, close);
      assert Search(s[1..], open, close) == r;
      SearchLeftmost(s[1..], open, close);
      var i :| 0 <= i < |s[1..]| && MatchHere(s[1..][i..], open, close) == r
        && NoMatchBefore(s[1..], i, open, close);
      NoMatchShift(s, i, open, close);
      SuffixOfTail(s, i + 1);
    }
  }

  lemma NoMatchShift(s: string, i: nat, open: string, close: char)
    requires i < |s| && MatchHere(s, open, close).None? && NoMatchBefore(s[1..], i, open, close)
    ensures NoMatchBefore(s, i + 1, open, close)
  {
    assert s[0..] == s;
    forall k | 1 <= k < i + 1 ensures MatchHere(s[k..], open, close).None? {
      SuffixOfTail(s, k);
    }
  }

  /** Nothing is found only when the pattern matches at no position. */
  lemma {:induction false} SearchNoneNowhere(s: string, open: string, close: char)
    requires Search(s, open, close).None?
    ensures forall i :: 0 <= i < |s| ==> MatchHere(s[i..], open, close).None?
  {
    if s != [] {
      assert s[0..] == s;
      SearchNoneNowhere(s[1..], open, close);
      forall i | 1 <= i < |s| ensures MatchHere(s[i..], open, close).None? {
        SuffixOfTail(s, i);
      }
    }
  }

  lemma SuffixOfTail(s: string, k: nat)
    requires 1 <= k <= |s|
    ensures s[1..][k - 1..] == s[k..]
  {
  }

  /** The group is found when `open` is not started earlier: the text before the match does not
      hold the first character of `open`. */
  lemma {:induction false} SearchFinds(pre: string, open: string, g: string, close: char, post: string)
    requires |open| > 0 && open[0] !in pre
    requires close !in g && '\n' !in g
    ensures Search(pre + open + g + [close] + post, open, close) == Some(g)
  {
    var s := pre + open + g + [close] + post;
    if pre == [] {
      var t := g + [close] + post;
      assert s == open + t && s[..|open|] == open && s[|open|..] == t;
      GroupEndOf(g, close, post);
      assert t[..|g|] == g;
    } else {
      assert s[0] == pre[0] && s[0] != open[0];
      assert s[1..] == pre[1..] + open + g + [close] + post;
      SearchFinds(pre[1..], open, g, close, post);
    }
  }

  lemma {:induction false} GroupEndOf(g: string, close: char, post: string)
    requires close !in g && '\n' !in g
    ensures GroupEnd(g + [close] + post, close) == Some(|g|)
  {
    if g != [] {
      assert (g + [close] + post)[1..] == g[1..] + [close] + post;
      GroupEndOf(g[1..], close, post);
    }
  }

  /** The driver's usual detail line: the key column of a duplicate is recovered. */
  lemma SearchExample()
    ensures Search("Key (" + "email" + ")=(a@b.c) already exists.", "Key (", ')') == Some("email")
  {
    var post := "=(a@b.c) already exists.";
    assert ")=(a@b.c) already exists." == [')'] + post;
    assert [] + "Key (" + "email" + [')'] + post == "Key (" + "email" + ")=(a@b.c) already exists.";
    SearchFinds([], "Key (", "email", ')', post);
  }

  // ---------------------------------------------------------------- attribute in question

  function OrError(found: Option<string>): Json
  {
    match found
    case Some(g) => JString(g)
    case None => JString("ERROR")
  }

  function Strings(parts: seq<string>): (r: seq<Json>)
    ensures |r| == |parts| && forall i :: 0 <= i < |parts| ==> r[i] == JString(parts[i])
  {
    if parts == [] then [] else [JString(parts[0])] + Strings(parts[1..])
  }

  /** The attribute the helper extracts for each violation (and then leaves out of the reply). */
  function AttrInQuestion(v: Violation, details: string): Json
  {
    match v
    case Unique => OrError(Search(details, "Key (", ')'))
    case NotNull => OrError(Search(details, "null value in column \"", '"'))
    case ForeignKey => OrError(Search(details, "Key (", ')'))
    case Check => OrError(Search(details, "value for the column \"", '"'))
    case Exclusion =>
      (match Search(details, "Key (", ')')
       case Some(g) => if Contains(g, ", ") then JArray(Strings(SplitOn(g, ", "))) else JString(g)
       case None => JString("ERROR"))
    case InvalidText => JString("ERROR")
    case Unhandled => JString("ERROR")
  }

  /** The columns of an exclusion key, split at ", ", join back to the captured key. */
  lemma ExclusionColumns(details: string)
    requires Classify(details) == Exclusion
    ensures var a := AttrInQuestion(Exclusion, details);
      a.JArray? ==> exists g :: Search(details, "Key (", ')') == Some(g) && Join(SplitOn(g, ", "), ", ") == g
                                && a == JArray(Strings(SplitOn(g, ", ")))
  {
    match Search(details, "Key (", ')')
    case Some(g) => JoinSplitOn(g, ", ");
    case None =>
  }

  // ---------------------------------------------------------------- replies

  /** A JSON body and an HTTP status. */
  datatype Reply = Reply(body: map<string, Json>, status: int)

  /** What escapes the helper: the error itself, or the AttributeError of reading `err.orig` on
      an error that has none. */
  datatype Escaped = Propagated(error: DbFault) | MissingOrig

  const Created: Reply := Reply(map["message" := JString("User created")], 201)

  function ConflictReply(details: string): (r: Reply)
    ensures r.status == 409 && r.body.Keys == {"message", "details"}
    ensures r.body["message"] == JString(Message(Classify(details))) && r.body["details"] == JString(details)
  {
    Reply(map["message" := JString(Message(Classify(details))), "details" := JString(details)], 409)
  }

  function ServerErrorReply(details: string): (r: Reply)
    ensures r.status == 500 && r.body.Keys == {"message", "details"}
    ensures r.body["message"] == JString(GenericMessage) && r.body["details"] == JString(details)
  {
    Reply(map["message" := JString(GenericMessage), "details" := JString(details)], 500)
  }

  /** The two `except` clauses as written. The first catches every statement error, so an
      `OperationalError` never reaches the second; an `InvalidRequestError` does, but has no
      `orig` to report. */
  function Handle(e: DbFault): (r: Result<Reply, Escaped>)
    ensures IsStatementError(e.errorClass) ==> r == Success(ConflictReply(e.orig))
    ensures e.errorClass.InvalidRequestError? ==> r == Failure(MissingOrig)
    ensures r.Failure? && r.error.Propagated? <==>
      !IsStatementError(e.errorClass) && !e.errorClass.InvalidRequestError?
  {
    if IsStatementError(e.errorClass) then Success(ConflictReply(e.orig))
    else if e.errorClass.InvalidRequestError? || e.errorClass.OperationalError? then
      // the 500 reply is unreachable: every class reaching this branch that is a statement
      // error was already caught above
      (if IsStatementError(e.errorClass) then Success(ServerErrorReply(e.orig)) else Failure(MissingOrig))
    else Failure(Propagated(e))
  }

  /** As written, a lost database connection (`OperationalError`) is answered with 409 and the
      500 reply is never produced. */
  lemma HandleAsWritten(e: DbFault)
    ensures e.errorClass.OperationalError? ==> Handle(e) == Success(ConflictReply(e.orig))
    ensures Handle(e).Success? ==> Handle(e).value.status == 409
    ensures e.errorClass.InvalidRequestError? ==> Handle(e) == Failure(MissingOrig)
    ensures Handle(e).Success? <==> IsStatementError(e.errorClass)
  {
  }

  /** The reply the route documents for a conflict, naming the attribute in question. */
  function ConflictReplyIntended(details: string): (r: Reply)
    ensures r.status == 409 && r.body.Keys == {"message", "details", "attr_in_question"}
    ensures r.body["attr_in_question"] == AttrInQuestion(Classify(details), details)
    ensures r.body - {"attr_in_question"} == ConflictReply(details).body
  {
    var v := Classify(details);
    Reply(map["message" := JString(Message(v)), "details" := JString(details),
              "attr_in_question" := AttrInQuestion(v, details)], 409)
  }

  /** The handler as documented: connection and request errors give 500 (with the driver error
      when there is one), other statement errors give the conflict reply with its attribute. */
  function HandleIntended(e: DbFault): (r: Result<Reply, Escaped>)
    ensures e.errorClass.OperationalError? ==> r == Success(ServerErrorReply(e.orig))
    ensures e.errorClass.InvalidRequestError? ==> r == Success(ServerErrorReply(e.text))
    ensures IsStatementError(e.errorClass) && !e.errorClass.OperationalError? ==>
      r == Success(ConflictReplyIntended(e.orig))
    ensures r.Failure? <==> !IsStatementError(e.errorClass) && !e.errorClass.InvalidRequestError?
  {
    if e.errorClass.OperationalError? then Success(ServerErrorReply(e.orig))
    else if e.errorClass.InvalidRequestError? then Success(ServerErrorReply(e.text))
    else if IsStatementError(e.errorClass) then Success(ConflictReplyIntended(e.orig))
    else Failure(Propagated(e))
  }

  /** With the intended order, 500 means the database could not serve the request and 409 means
      a rejected row whose reply names the attribute in question. */
  lemma HandleIntendedStatuses(e: DbFault)
    ensures HandleIntended(e).Success? ==> HandleIntended(e).value.status in {409, 500}
    ensures HandleIntended(e).Success? && HandleIntended(e).value.status == 500 <==>
      e.errorClass.OperationalError? || e.errorClass.InvalidRequestError?
    ensures HandleIntended(e).Success? && HandleIntended(e).value.status == 409 ==>
      "attr_in_question" in HandleIntended(e).value.body
    ensures HandleIntended(e).Failure? <==> Handle(e).Failure? && !e.errorClass.InvalidRequestError?
  {
  }

  // ---------------------------------------------------------------- session

  /** A row as the model's `to_dict` gives it. */
  type Row = map<string, Json>

  /** The part of a database session the helper uses: rows added but not committed, and rows
      committed. */
  class Session {
    var pending: seq<Row>
    var committed: seq<Row>

    constructor ()
      ensures pending == [] && committed == []
    {
      pending := [];
      committed := [];
    }

    method Add(row: Row)
      modifies this
      ensures pending == old(pending) + [row] && committed == old(committed)
    {
      pending := pending + [row];
    }

    method Commit()
      modifies this
      ensures committed == old(committed) + old(pending) && pending == []
    {
      committed := committed + pending;
      pending := [];
    }

    method Rollback()
      modifies this
      ensures pending == [] && committed == old(committed)
    {
      pending := [];
    }
  }

  /** Which session call raises. */
  datatype Stage = AtAdd | AtCommit

  /** `insert_data_to_session(db, data)`. `fault` is the error the database raises, if any, and
      the call that raises it. */
  method InsertDataToSession(session: Session, data: Row, fault: Option<(Stage, DbFault)>) returns (r: Result<Reply, Escaped>)
    modifies session
    ensures fault.None? ==> r == Success(Created)
    ensures fault.Some? ==> r == Handle(fault.value.1)
    ensures fault.None? ==> session.committed == old(session.committed) + old(session.pending) + [data] && session.pending == []
    ensures fault.Some? ==> session.committed == old(session.committed)
    ensures fault.Some? && IsStatementError(fault.value.1.errorClass) ==> session.pending == []
    ensures fault.Some? && !IsStatementError(fault.value.1.errorClass) ==>
      session.pending == old(session.pending) + (if fault.value.0 == AtCommit then [data] else [])
  {
    var raised: Option<DbFault> := None;
    if fault.Some? && fault.value.0 == AtAdd {
      raised := Some(fault.value.1);
    } else {
      session.Add(data);
      if fault.Some? {
        raised := Some(fault.value.1);
      } else {
        session.Commit();
      }
    }
    if raised.None? {
      return Success(Created);
    }
    var err := raised.value;
    if IsStatementError(err.errorClass) {
      session.Rollback();
      return Success(ConflictReply(err.orig));
    }
    r := Handle(err);
  }
}
