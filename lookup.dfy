/** The lookup resolvers of the logger: they turn the categorical fields of a
    record into the integer keys of the reference tables. Four policies:
    strict lookup (HTTP method), identity passthrough (status code),
    lookup with one alias (environment) and auto-provisioning (error source,
    file type). The database is replaced by maps from name to key; a failing
    query is an explicit input, and every resolver turns it into None. */
module Lookup {
  import opened PyValues

  // ---------------------------------------------------------------------------
  // int() applied to text, restricted to an optional sign and ASCII digits
  // ---------------------------------------------------------------------------

  predicate IsDigit(c: char) {
    '0' <= c <= '9'
  }

  predicate AllDigits(s: string) {
    forall i :: 0 <= i < |s| ==> IsDigit(s[i])
  }

  /** The value of a string of decimal digits, most significant first. */
  function DigitsValue(s: string): nat
    requires AllDigits(s)
    decreases |s|
  {
    if s == [] then 0
    else DigitsValue(s[..|s| - 1]) * 10 + (s[|s| - 1] as int - '0' as int)
  }

  /** `int(s)` for text: None where Python raises ValueError. */
  function ParseInt(s: string): Option<int> {
    var signed := |s| > 0 && (s[0] == '+' || s[0] == '-');
    var digits := if signed then s[1..] else s;
    if digits != [] && AllDigits(digits) then
      var magnitude: int := DigitsValue(digits);
      Some(if signed && s[0] == '-' then -magnitude else magnitude)
    else
      None
  }

  function DigitChar(d: nat): char
    requires d < 10
  {
    ('0' as int + d) as char
  }

  /** The decimal rendering of a natural number (`str(n)`), the reference
      against which ParseInt is checked. */
  function DecimalDigits(n: nat): (s: string)
    ensures s != [] && AllDigits(s)
    decreases n
  {
    if n < 10 then [DigitChar(n)] else DecimalDigits(n / 10) + [DigitChar(n % 10)]
  }

  /** `str(n)` for any integer. */
  function IntText(n: int): string {
    if n < 0 then "-" + DecimalDigits(-n) else DecimalDigits(n)
  }

  lemma {:induction false} DigitsValueOfDecimal(n: nat)
    ensures DigitsValue(DecimalDigits(n)) == n
    decreases n
  {
    if n >= 10 {
      var s := DecimalDigits(n / 10);
      DigitsValueOfDecimal(n / 10);
      assert (s + [DigitChar(n % 10)])[..|s|] == s;
    }
  }

  /** Parsing the text of an integer gives that integer back. */
  lemma ParseIntText(n: int)
    ensures ParseInt(IntText(n)) == Some(n)
  {
    if n < 0 {
      var d := DecimalDigits(-n);
      assert ("-" + d)[1..] == d;
      DigitsValueOfDecimal(-n);
    } else {
      var d := DecimalDigits(n);
      assert IsDigit(d[0]);
      DigitsValueOfDecimal(n);
    }
  }

  // ---------------------------------------------------------------------------
  // Strict and read-only resolvers
  // ---------------------------------------------------------------------------

  /** One `SELECT ... WHERE Name = :name` against a reference table. A
      non-string parameter is modelled as a query that fails, as is a failing
      database; both read as "no key". */
  function SelectId(table: map<string, int>, name: Value, queryFails: bool): (id: Option<int>)
    ensures id.Some? <==> !queryFails && name.Str? && name.s in table
    ensures id.Some? ==> id.value == table[name.s]
  {
    if queryFails || !name.Str? then None
    else if name.s in table then Some(table[name.s])
    else None
  }

  /** `_get_http_method_id`: empty input, a miss and a failing query all give
      None; the table is only read. */
  function ResolveHttpMethod(methods: map<string, int>, verb: Value, queryFails: bool): (id: Option<int>)
    ensures id.Some? <==> Truthy(verb) && !queryFails && verb.Str? && verb.s in methods
    ensures id.Some? ==> id.value == methods[verb.s]
  {
    if !Truthy(verb) then None else SelectId(methods, verb, queryFails)
  }

  /** `_get_http_status_code_id`: the key is the status code itself, so no
      table is consulted; falsy input (including 0) gives None, and so does
      input `int()` rejects. */
  function ResolveStatusCode(code: Value): (id: Option<int>)
    ensures !Truthy(code) ==> id == None
    ensures code.Int? && code.i != 0 ==> id == Some(code.i)
    ensures code == Bool(true) ==> id == Some(1)
    ensures code.Str? ==> id == ParseInt(code.s)
    ensures code.List? || code.Dict? || code.Time? ==> id == None
  {
    if !Truthy(code) then None
    else match code
      case Int(i) => Some(i)
      case Bool(_) => Some(1)
      case Str(s) => ParseInt(s)
      case _ => None
  }

  /** A status code given as text resolves to the number it spells, zero
      included (the text "0" is truthy, unlike the integer 0). */
  lemma StatusCodeTextRoundTrip(n: int)
    ensures ResolveStatusCode(Str(IntText(n))) == Some(n)
  {
    ParseIntText(n);
  }

  const DefaultEnvironment: string := "Dev"
  const EnvironmentAlias: string := "Development"

  /** `_get_environment_id`: falsy input stands for "Dev"; a hit gives the
      table's key; a miss on exactly "Dev" retries "Development"; any other
      miss, and a failing query, give None. */
  function ResolveEnvironment(environments: map<string, int>, environment: Value, queryFails: bool): (id: Option<int>)
    ensures queryFails ==> id == None
    ensures id.Some? ==> id.value in environments.Values
    ensures !queryFails && Truthy(environment) && environment.Str? && environment.s in environments ==>
              id == Some(environments[environment.s])
    ensures !queryFails && !Truthy(environment) ==>
              id == (if DefaultEnvironment in environments then Some(environments[DefaultEnvironment])
                     else if EnvironmentAlias in environments then Some(environments[EnvironmentAlias])
                     else None)
    ensures (&& Truthy(environment) && environment != Str(DefaultEnvironment)
             && (!environment.Str? || environment.s !in environments)) ==> id == None
    ensures (&& !queryFails && (!Truthy(environment) || environment == Str(DefaultEnvironment))
             && DefaultEnvironment !in environments) ==>
              id == (if EnvironmentAlias in environments then Some(environments[EnvironmentAlias]) else None)
  {
    var name := if Truthy(environment) then environment else Str(DefaultEnvironment);
    if queryFails then None
    else match SelectId(environments, name, false)
      case Some(id) => Some(id)
      case None =>
        if name == Str(DefaultEnvironment) then SelectId(environments, Str(EnvironmentAlias), false)
        else None
  }

  // ---------------------------------------------------------------------------
  // Auto-provisioning resolvers (error source, file type)
  // ---------------------------------------------------------------------------

  /** Which of the up to three queries of an auto-provisioning resolver
      fails: the first lookup, the insert (with its commit), or the read-back. */
  datatype Fault = Healthy | SelectFails | InsertFails | RereadFails

  /** A reference table whose keys come from an identity column: `nextId` is
      the key the next inserted row receives. */
  datatype TableState = TableState(ids: map<string, int>, nextId: int)

  /** Every key is below the next fresh key, and no two names share a key. */
  ghost predicate TableValid(t: TableState) {
    && (forall n :: n in t.ids ==> t.ids[n] < t.nextId)
    && (forall a, b :: a in t.ids && b in t.ids && a != b ==> t.ids[a] != t.ids[b])
  }

  /** `_get_error_source_id` / `_get_file_type_id` on the table's state:
      returns the new state and the key. */
  function Provision(t: TableState, name: Value, fault: Fault): (res: (TableState, Option<int>))
    ensures !Truthy(name) ==> res == (t, None)
    ensures fault == SelectFails ==> res == (t, None)
    ensures Truthy(name) && name.Str? && name.s in t.ids && fault != SelectFails ==>
              res == (t, Some(t.ids[name.s]))
    ensures res.1.Some? ==> name.Str? && name.s in res.0.ids && res.0.ids[name.s] == res.1.value
    ensures forall n :: n in t.ids ==> n in res.0.ids && res.0.ids[n] == t.ids[n]
    ensures res.0.ids.Keys <= t.ids.Keys + (if name.Str? then {name.s} else {})
    ensures TableValid(t) ==> TableValid(res.0)
    // a name that is not text is never looked up or inserted
    ensures !name.Str? ==> res == (t, None)
    // a failing insert leaves the table; a failing insert or read-back gives None for a new name
    ensures fault == InsertFails ==> res.0 == t
    ensures (fault == InsertFails || fault == RereadFails) && !(name.Str? && name.s in t.ids) ==> res.1 == None
    // the only change ever made is inserting the name under the next identity key
    ensures res.0 != t ==> name.Str? && res.0 == TableState(t.ids[name.s := t.nextId], t.nextId + 1)
  {
    if !Truthy(name) || fault == SelectFails || !name.Str? then (t, None)
    else if name.s in t.ids then (t, Some(t.ids[name.s]))
    else if fault == InsertFails then (t, None)
    else
      var t' := TableState(t.ids[name.s := t.nextId], t.nextId + 1);
      (t', if fault == RereadFails then None else SelectId(t'.ids, name, false))
  }

  /** An unknown name is inserted with a fresh key that no other name has. */
  lemma ProvisionInsertsFresh(t: TableState, name: string, fault: Fault)
    requires TableValid(t)
    requires name != "" && name !in t.ids
    requires fault == Healthy || fault == RereadFails
    ensures var (t', id) := Provision(t, Str(name), fault);
            && t'.ids == t.ids[name := t.nextId]
            && |t'.ids| == |t.ids| + 1
            && (forall n :: n in t.ids ==> t.ids[n] != t'.ids[name])
            && (fault == Healthy ==> id == Some(t.nextId))
  {
  }

  /** Resolving a name a second time gives the key the first resolve stored
      and does not grow the table, even when the first read-back failed. */
  lemma ProvisionIdempotent(t: TableState, name: string, first: Fault, second: Fault)
    requires TableValid(t)
    requires name != ""
    requires first != SelectFails && first != InsertFails
    requires second != SelectFails
    ensures var (t1, id1) := Provision(t, Str(name), first);
            var (t2, id2) := Provision(t1, Str(name), second);
            && t2 == t1
            && name in t1.ids
            && id2 == Some(t1.ids[name])
            && (id1.Some? ==> id2 == id1)
  {
  }

  /** The mutable reference table behind an auto-provisioning resolver. */
  class ProvisionedTable {
    var ids: map<string, int>
    var nextId: int

    function State(): TableState
      reads this
    {
      TableState(ids, nextId)
    }

    ghost predicate Valid()
      reads this
    {
      TableValid(State())
    }

    constructor (ids: map<string, int>, nextId: int)
      requires TableValid(TableState(ids, nextId))
      ensures Valid() && State() == TableState(ids, nextId)
    {
      this.ids := ids;
      this.nextId := nextId;
    }

    /** Look the name up; on a miss insert it, commit, and read the key back. */
    method Resolve(name: Value, fault: Fault) returns (id: Option<int>)
      requires Valid()
      modifies this
      ensures Valid()
      ensures (State(), id) == Provision(old(State()), name, fault)
    {
      if !Truthy(name) {
        return None;
      }
      if fault == SelectFails || !name.Str? {
        return None;
      }
      var row := SelectId(ids, name, false);
      if row.Some? {
        return row;
      }
      if fault == InsertFails {
        return None;
      }
      ids := ids[name.s := nextId];
      nextId := nextId + 1;
      if fault == RereadFails {
        return None;
      }
      id := SelectId(ids, name, false);
    }
  }
}
