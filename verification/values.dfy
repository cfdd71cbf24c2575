/** Values shared by every handler of the todo API: optional request fields,
    the three enumerations the API validates, the names of the request fields,
    the fixed response messages, and the behaviour of the code this model does
    not look into (date parsing and formatting, SQL `LIKE`). */
module Values {

  /** A request field that may be absent (`undefined` in the request). */
  datatype Option<T> = None | Some(value: T)

  /** Either a value or the text of a 400 response. */
  datatype Result<T> = Success(value: T) | Failure(message: string)

  /** The priorities, statuses and categories a todo may carry. */
  datatype Priority = High | Medium | Low
  datatype Status = ToDo | InProgress | Done
  datatype Category = Work | Home | Learning

  /** The spelling of each enumeration value on the wire and in the table. */
  function PriorityName(p: Priority): string {
    match p
    case High => "HIGH"
    case Medium => "MEDIUM"
    case Low => "LOW"
  }

  function StatusName(s: Status): string {
    match s
    case ToDo => "TO DO"
    case InProgress => "IN PROGRESS"
    case Done => "DONE"
  }

  function CategoryName(c: Category): string {
    match c
    case Work => "WORK"
    case Home => "HOME"
    case Learning => "LEARNING"
  }

  /** Membership in the three-element list of priorities: a string is
      accepted exactly when it is the name of some priority. */
  function IsValidPriority(s: string): (b: bool)
    ensures b <==> exists p: Priority :: PriorityName(p) == s
  {
    assert PriorityName(High) == "HIGH" && PriorityName(Medium) == "MEDIUM" && PriorityName(Low) == "LOW";
    s in ["HIGH", "MEDIUM", "LOW"]
  }

  function IsValidStatus(s: string): (b: bool)
    ensures b <==> exists st: Status :: StatusName(st) == s
  {
    assert StatusName(ToDo) == "TO DO" && StatusName(InProgress) == "IN PROGRESS" && StatusName(Done) == "DONE";
    s in ["TO DO", "IN PROGRESS", "DONE"]
  }

  function IsValidCategory(s: string): (b: bool)
    ensures b <==> exists c: Category :: CategoryName(c) == s
  {
    assert CategoryName(Work) == "WORK" && CategoryName(Home) == "HOME" && CategoryName(Learning) == "LEARNING";
    s in ["WORK", "HOME", "LEARNING"]
  }

  /** Distinct enumeration values have distinct names, so each validator
      accepts exactly three strings. */
  lemma NamesAreInjective()
    ensures forall p, p': Priority :: PriorityName(p) == PriorityName(p') ==> p == p'
    ensures forall s, s': Status :: StatusName(s) == StatusName(s') ==> s == s'
    ensures forall c, c': Category :: CategoryName(c) == CategoryName(c') ==> c == c'
  {
  }

  /** The fields of a todo as they are named in request bodies and queries. */
  datatype Field = TodoField | PriorityField | StatusField | CategoryField | DueDateField

  /** The behaviour of code outside the model: `isValid(new Date(s))` and
      `format(new Date(s), "yyyy-MM-dd")` from date-fns, and the SQL test
      `text LIKE '%q%'`. */
  datatype Env = Env(
    validDate: string -> bool,
    normalize: string -> string,
    matches: (string, string) -> bool)

  /** The check a handler applies to a supplied field value; an absent value
      fails every check (`includes(undefined)` and `new Date(undefined)` are
      both rejected), and the todo text is never checked. */
  function Accepts(env: Env, f: Field, v: Option<string>): (b: bool)
    ensures f == TodoField ==> b
    ensures f == PriorityField ==> (b <==> exists p: Priority :: v == Some(PriorityName(p)))
    ensures f == StatusField ==> (b <==> exists st: Status :: v == Some(StatusName(st)))
    ensures f == CategoryField ==> (b <==> exists c: Category :: v == Some(CategoryName(c)))
    ensures f == DueDateField ==> (b <==> v.Some? && env.validDate(v.value))
  {
    match f
    case TodoField => true
    case PriorityField => v.Some? && IsValidPriority(v.value)
    case StatusField => v.Some? && IsValidStatus(v.value)
    case CategoryField => v.Some? && IsValidCategory(v.value)
    case DueDateField => v.Some? && env.validDate(v.value)
  }

  const InvalidPriority := "Invalid Todo Priority"
  const InvalidStatus := "Invalid Todo Status"
  const InvalidCategory := "Invalid Todo Category"
  const InvalidDueDate := "Invalid Due Date"

  /** The 400 message that names a field whose check failed. */
  function InvalidMessage(f: Field): string
    requires f != TodoField
  {
    match f
    case PriorityField => InvalidPriority
    case StatusField => InvalidStatus
    case CategoryField => InvalidCategory
    case DueDateField => InvalidDueDate
  }

  /** A field paired with the value the request gave for it. */
  type Check = (Field, Option<string>)

  /** The field of the first check in `checks` whose value fails, if any. */
  function FirstRejected(env: Env, checks: seq<Check>): (r: Option<Field>)
    ensures r.None? <==> forall i :: 0 <= i < |checks| ==> Accepts(env, checks[i].0, checks[i].1)
    ensures r.Some? ==> r.value != TodoField
    ensures r.Some? ==> exists i :: 0 <= i < |checks| && checks[i].0 == r.value
                          && !Accepts(env, checks[i].0, checks[i].1)
                          && forall j :: 0 <= j < i ==> Accepts(env, checks[j].0, checks[j].1)
  {
    if |checks| == 0 then None
    else if !Accepts(env, checks[0].0, checks[0].1) then Some(checks[0].0)
    else
      var rest := FirstRejected(env, checks[1..]);
      if rest.Some? then
        ghost var i :| 0 <= i < |checks[1..]| && checks[1..][i].0 == rest.value
                      && !Accepts(env, checks[1..][i].0, checks[1..][i].1)
                      && forall j :: 0 <= j < i ==> Accepts(env, checks[1..][j].0, checks[1..][j].1);
        assert checks[i + 1] == checks[1..][i];
        rest
      else rest
  }
}
