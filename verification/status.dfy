/**
 * The status vocabularies of the dashboard and the mappers between them.
 *
 * Work orders persist one of "Pending", "In Progress", "Completed". The UI speaks
 * three other vocabularies: board columns ("todo" | "inProgress" | "done"), the
 * details modal's stages ("not-started" | "in-progress" | "completed"), and the
 * traffic lights of the quick-add forms ("red" | "yellow" | "green"). The mappers
 * are copied, with small differences, across several source files; each copy is
 * modelled separately so the differences are visible.
 */
module Status {
  import opened Js

  /** A board column, which is also the board's local status of a task. */
  datatype Column = Todo | InProgress | Done

  /** The details modal's local status: "not-started" | "in-progress" | "completed". */
  datatype Stage = NotStarted | Ongoing | Completed

  const PENDING: string := "Pending"
  const IN_PROGRESS: string := "In Progress"
  const COMPLETED: string := "Completed"

  const RED_HEX: string := "#e23232"
  const YELLOW_HEX: string := "#d6cd24"
  const GREEN_HEX: string := "#1eb386"

  /** One of the three status strings the store holds. */
  predicate IsPersisted(s: string) {
    s == PENDING || s == IN_PROGRESS || s == COMPLETED
  }

  /** The key of a column in the board record and in its droppable id. */
  function ColumnKey(c: Column): string {
    match c
    case Todo => "todo"
    case InProgress => "inProgress"
    case Done => "done"
  }

  /** The board's `localStatusToDb` on a column. Its `default` branch ("Pending") is reached
      only by a stray drop name, which the board models where it arises. */
  function ColumnToDb(c: Column): (r: string)
    ensures IsPersisted(r)
  {
    match c
    case Todo => PENDING
    case InProgress => IN_PROGRESS
    case Done => COMPLETED
  }

  /** The column whose key the JavaScript value `s` is, if it is one. */
  function ColumnOfKey(s: Option<string>): (r: Option<Column>)
    ensures r.Some? ==> s == Some(ColumnKey(r.value))
    ensures r.None? ==> forall c :: s != Some(ColumnKey(c))
  {
    if s == Some("todo") then Some(Todo)
    else if s == Some("inProgress") then Some(InProgress)
    else if s == Some("done") then Some(Done)
    else None
  }

  /** The list view's `localStatusToDb`: a switch over the three column keys with no
      `default`, so every other value, `undefined` included, gives `undefined` (`None`). */
  function ListStatusToDb(s: Option<string>): (r: Option<string>)
    ensures r.Some? <==> ColumnOfKey(s).Some?
    ensures r.Some? ==> IsPersisted(r.value)
  {
    if s == Some("todo") then Some(PENDING)
    else if s == Some("inProgress") then Some(IN_PROGRESS)
    else if s == Some("done") then Some(COMPLETED)
    else None
  }

  /** The board's `getStatusColor` on a column. */
  function ColumnColor(c: Column): string {
    match c
    case Todo => RED_HEX
    case InProgress => YELLOW_HEX
    case Done => GREEN_HEX
  }

  /** The listing's `mapStatus`: case-insensitive, and total. */
  function MapStatus(s: Option<string>): Column {
    if !Truthy(s) then Todo
    else
      var l := ToLower(s.value);
      if l == "pending" then Todo
      else if l == "in progress" then InProgress
      else if l == "completed" then Done
      else Todo
  }

  /** The listing's `getStatusColor`: accepts both the persisted and the column vocabulary,
      in any letter case. */
  function StatusColor(s: string): string {
    var l := ToLower(s);
    if l == "pending" || l == "todo" then RED_HEX
    else if l == "in progress" || l == "inprogress" then YELLOW_HEX
    else if l == "completed" || l == "done" then GREEN_HEX
    else RED_HEX
  }

  /** The list view's `dbStatusToLocal`: case-sensitive, anything unrecognised is "todo". */
  function DbToColumn(s: string): Column {
    if s == IN_PROGRESS then InProgress
    else if s == COMPLETED then Done
    else Todo
  }

  /** The details modal's `mapDbStatusToLocal`. */
  function DbToStage(s: string): Stage {
    if s == PENDING then NotStarted
    else if s == IN_PROGRESS then Ongoing
    else if s == COMPLETED then Completed
    else NotStarted
  }

  /** The details modal's `mapLocalStatusToDb`. */
  function StageToDb(st: Stage): (r: string)
    ensures IsPersisted(r)
  {
    match st
    case NotStarted => PENDING
    case Ongoing => IN_PROGRESS
    case Completed => COMPLETED
  }

  /** The add-job modal's column choice for a traffic-light status. */
  function LightToColumn(light: string): Column {
    if light == "red" then Todo
    else if light == "yellow" then InProgress
    else Done
  }

  // ---------------------------------------------------------------------------
  // Properties of the mappers

  /** The lower-case forms of the persisted and column spellings. */
  lemma LowerOfKnownWords()
    ensures ToLower(PENDING) == "pending"
    ensures ToLower(IN_PROGRESS) == "in progress"
    ensures ToLower(COMPLETED) == "completed"
    ensures ToLower("todo") == "todo"
    ensures ToLower("inProgress") == "inprogress"
    ensures ToLower("done") == "done"
  {
    LowerWord(PENDING, "pending");
    LowerWord(IN_PROGRESS, "in progress");
    LowerWord(COMPLETED, "completed");
    LowerWord("todo", "todo");
    LowerWord("inProgress", "inprogress");
    LowerWord("done", "done");
  }

  lemma LowerWord(s: string, l: string)
    requires |s| == |l|
    requires forall i :: 0 <= i < |s| ==> LowerChar(s[i]) == l[i]
    ensures ToLower(s) == l
  {
  }

  /** Each column survives a trip through the persisted vocabulary, with either reader, and
      keeps its colour on the way. */
  lemma ColumnRoundTrip(c: Column)
    ensures DbToColumn(ColumnToDb(c)) == c
    ensures MapStatus(Some(ColumnToDb(c))) == c
    ensures ColumnColor(c) == StatusColor(ColumnKey(c)) == StatusColor(ColumnToDb(c))
  {
    LowerOfKnownWords();
  }

  /** The list view's copy of `localStatusToDb` agrees with the board's on the three column
      keys and, lacking the board's `default`, gives `undefined` everywhere else: for a
      persisted string, for any other text, and for `undefined` itself. */
  lemma ListCopyAgreesOnKeys(c: Column, s: Option<string>)
    ensures ListStatusToDb(Some(ColumnKey(c))) == Some(ColumnToDb(c))
    ensures ColumnOfKey(s).None? ==> ListStatusToDb(s).None?
    ensures (s.None? || (s.Some? && IsPersisted(s.value))) ==> ListStatusToDb(s).None?
  {
  }

  /** `mapDbStatusToLocal(mapLocalStatusToDb(l)) == l` for every stage, and in the other
      direction every persisted string comes back unchanged while anything else becomes
      "Pending". */
  lemma StageRoundTrip(st: Stage, s: string)
    ensures DbToStage(StageToDb(st)) == st
    ensures StageToDb(DbToStage(s)) == if IsPersisted(s) then s else PENDING
    ensures !IsPersisted(s) ==> DbToStage(s) == NotStarted
  {
  }

  lemma LowerCharIdempotent(c: char)
    ensures LowerChar(LowerChar(c)) == LowerChar(c)
  {
  }

  lemma {:induction false} ToLowerIdempotent(s: string)
    ensures ToLower(ToLower(s)) == ToLower(s)
  {
    var t := ToLower(s);
    forall i | 0 <= i < |s|
      ensures ToLower(t)[i] == t[i]
    {
      LowerCharIdempotent(s[i]);
    }
  }

  /** `mapStatus` ignores letter case: a status and its lower-case form map alike. */
  lemma MapStatusCaseInsensitive(s: string)
    ensures MapStatus(Some(s)) == MapStatus(Some(ToLower(s)))
  {
    ToLowerIdempotent(s);
    if s == "" {
    } else {
      assert ToLower(s)[0] == LowerChar(s[0]);
    }
  }

  /** `mapStatus` reads an order's status: the result is a column other than "todo" exactly
      when the lower-cased status is "in progress" or "completed"; missing, empty and
      unknown statuses land in "todo". */
  lemma MapStatusCases(s: Option<string>)
    ensures MapStatus(s) == InProgress <==> s.Some? && ToLower(s.value) == "in progress"
    ensures MapStatus(s) == Done <==> s.Some? && ToLower(s.value) == "completed"
    ensures MapStatus(s) == Todo <==> !(s.Some? && ToLower(s.value) in {"in progress", "completed"})
  {
    if s.Some? && s.value == "" {
      assert ToLower(s.value) == "";
    }
  }

  /** Both vocabularies get the same colour from the listing's `getStatusColor`; anything
      it does not recognise is red. */
  lemma StatusColorCases(s: string)
    ensures StatusColor(s) in {RED_HEX, YELLOW_HEX, GREEN_HEX}
    ensures StatusColor(s) == YELLOW_HEX <==> ToLower(s) in {"in progress", "inprogress"}
    ensures StatusColor(s) == GREEN_HEX <==> ToLower(s) in {"completed", "done"}
    ensures (ToLower(s) !in {"pending", "todo", "in progress", "inprogress", "completed", "done"})
              ==> StatusColor(s) == RED_HEX
  {
  }

  /** In the listing every item's colour is the board's colour of its column. */
  lemma ListingColorMatchesBoard(s: Option<string>)
    ensures StatusColor(ColumnKey(MapStatus(s))) == ColumnColor(MapStatus(s))
  {
    ColumnRoundTrip(MapStatus(s));
  }

  /** On persisted strings the case-sensitive list-view mapper and the case-insensitive
      listing mapper agree; they differ on other spellings of the same words. */
  lemma DbToColumnAgreesOnPersisted(s: string)
    ensures IsPersisted(s) ==> DbToColumn(s) == MapStatus(Some(s))
    ensures DbToColumn("completed") == Todo && MapStatus(Some("completed")) == Done
  {
    LowerOfKnownWords();
    assert ToLower("completed") == "completed" by {
      assert forall i | 0 <= i < 9 :: ToLower("completed")[i] == "completed"[i];
    }
  }

  /** The list view's mapper and the details modal's mapper agree, up to renaming. */
  lemma DbToColumnMatchesStage(s: string)
    ensures DbToColumn(s) == Todo <==> DbToStage(s) == NotStarted
    ensures DbToColumn(s) == InProgress <==> DbToStage(s) == Ongoing
    ensures DbToColumn(s) == Done <==> DbToStage(s) == Completed
  {
  }

  /** "red" sends a quick-added job to "todo", "yellow" to "inProgress", and every other
      value ("green") to "done"; only the two named lights avoid "done". */
  lemma LightToColumnCases(light: string)
    ensures LightToColumn(light) == Todo <==> light == "red"
    ensures LightToColumn(light) == InProgress <==> light == "yellow"
    ensures LightToColumn(light) == Done <==> light != "red" && light != "yellow"
  {
  }
}
