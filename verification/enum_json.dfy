/**
 * The shape every generated protobuf enum mapper shares. An enum is a table
 * of declared (number, name) entries; `FromJson` accepts a declared number or
 * a declared name and maps everything else to `UNRECOGNIZED` (-1); `ToJson`
 * maps a declared number to its name and everything else to "UNRECOGNIZED".
 */
module EnumJson {

  /** The JSON values a mapper can be handed. */
  datatype Json = Num(n: int) | Str(s: string) | Other

  /** One declared enum value. */
  datatype Entry = Entry(number: int, name: string)

  /** The number of the catch-all `UNRECOGNIZED` value. */
  const Unrecognized: int := -1

  /** The name of the catch-all `UNRECOGNIZED` value. */
  const UnrecognizedName: string := "UNRECOGNIZED"

  /**
   * A table as the generator emits it: numbers and names are each unique, and
   * neither collides with the catch-all.
   */
  predicate WellFormed(table: seq<Entry>) {
    (forall i, k :: 0 <= i < k < |table| ==> table[i].number != table[k].number && table[i].name != table[k].name) &&
    (forall i :: 0 <= i < |table| ==> table[i].number != Unrecognized && table[i].name != UnrecognizedName)
  }

  /** A `case` of the `FromJSON` switch: the entry's number or its name. */
  predicate Matches(e: Entry, j: Json) {
    j == Num(e.number) || j == Str(e.name)
  }

  /** Whether `n` is a declared number. */
  predicate Declared(table: seq<Entry>, n: int) {
    exists i :: 0 <= i < |table| && table[i].number == n
  }

  /** The generated `xxxFromJSON`: the first entry the input matches, or `UNRECOGNIZED`. */
  function FromJson(table: seq<Entry>, j: Json): (v: int)
    ensures (exists i :: 0 <= i < |table| && Matches(table[i], j)) ==>
      exists i :: 0 <= i < |table| && Matches(table[i], j) && v == table[i].number
    ensures (forall i :: 0 <= i < |table| ==> !Matches(table[i], j)) ==> v == Unrecognized
  {
    if |table| == 0 then Unrecognized
    else if Matches(table[0], j) then table[0].number
    else
      var v := FromJson(table[1..], j);
      assert forall i :: 1 <= i < |table| ==> table[i] == table[1..][i - 1];
      v
  }

  /** The generated `xxxToJSON`: the name of the first entry with that number, or "UNRECOGNIZED". */
  function ToJson(table: seq<Entry>, n: int): (name: string)
    ensures Declared(table, n) ==> exists i :: 0 <= i < |table| && table[i].number == n && name == table[i].name
    ensures !Declared(table, n) ==> name == UnrecognizedName
  {
    if |table| == 0 then UnrecognizedName
    else if table[0].number == n then table[0].name
    else
      var name := ToJson(table[1..], n);
      assert forall i :: 1 <= i < |table| ==> table[i] == table[1..][i - 1];
      name
  }

  /** In a well-formed table an input matches at most one entry. */
  lemma MatchUnique(table: seq<Entry>, j: Json, i: int, k: int)
    requires WellFormed(table)
    requires 0 <= i < |table| && 0 <= k < |table|
    requires Matches(table[i], j) && Matches(table[k], j)
    ensures i == k
  {
  }

  /** The result of `FromJson` is always a declared number or `UNRECOGNIZED`. */
  lemma FromJsonRange(table: seq<Entry>, j: Json)
    ensures FromJson(table, j) == Unrecognized || Declared(table, FromJson(table, j))
  {
  }

  /** An input matching entry `i` of a well-formed table is read as that entry's number. */
  lemma {:induction false} FromJsonOfMatch(table: seq<Entry>, i: int, j: Json)
    requires WellFormed(table)
    requires 0 <= i < |table| && Matches(table[i], j)
    ensures FromJson(table, j) == table[i].number
    decreases i
  {
    if i > 0 {
      assert !Matches(table[0], j);
      var rest := table[1..];
      assert rest[i - 1] == table[i];
      assert WellFormed(rest) by {
        forall a, b | 0 <= a < b < |rest|
          ensures rest[a].number != rest[b].number && rest[a].name != rest[b].name
        {
          assert rest[a] == table[a + 1] && rest[b] == table[b + 1];
        }
      }
      FromJsonOfMatch(rest, i - 1, j);
    }
  }

  /** Each declared value is accepted in both its numeric and its string form. */
  lemma FromJsonOfEntry(table: seq<Entry>, i: int)
    requires WellFormed(table)
    requires 0 <= i < |table|
    ensures FromJson(table, Num(table[i].number)) == table[i].number
    ensures FromJson(table, Str(table[i].name)) == table[i].number
  {
    FromJsonOfMatch(table, i, Num(table[i].number));
    FromJsonOfMatch(table, i, Str(table[i].name));
  }

  /** `ToJson` names each declared value by its own entry. */
  lemma ToJsonOfEntry(table: seq<Entry>, i: int)
    requires WellFormed(table)
    requires 0 <= i < |table|
    ensures ToJson(table, table[i].number) == table[i].name
  {
    assert Declared(table, table[i].number);
    var k :| 0 <= k < |table| && table[k].number == table[i].number && ToJson(table, table[i].number) == table[k].name;
    assert i == k;
  }

  /** Round trip from numbers: every declared value survives `ToJson` then `FromJson`. */
  lemma FromJsonToJson(table: seq<Entry>, n: int)
    requires WellFormed(table)
    requires Declared(table, n)
    ensures FromJson(table, Str(ToJson(table, n))) == n
    ensures FromJson(table, Num(n)) == n
  {
    var i :| 0 <= i < |table| && table[i].number == n;
    ToJsonOfEntry(table, i);
    FromJsonOfEntry(table, i);
  }

  /** Round trip from JSON: an accepted input comes back as the value's name. */
  lemma ToJsonFromJson(table: seq<Entry>, j: Json)
    requires WellFormed(table)
    requires FromJson(table, j) != Unrecognized
    ensures exists i :: 0 <= i < |table| && Matches(table[i], j) && ToJson(table, FromJson(table, j)) == table[i].name
    ensures j.Str? ==> ToJson(table, FromJson(table, j)) == j.s
  {
    var i :| 0 <= i < |table| && Matches(table[i], j) && FromJson(table, j) == table[i].number;
    ToJsonOfEntry(table, i);
  }

  /** An input that matches no entry is `UNRECOGNIZED`. */
  lemma NoMatchIsUnrecognized(table: seq<Entry>, j: Json)
    requires forall e :: e in table ==> !Matches(e, j)
    ensures FromJson(table, j) == Unrecognized
  {
    assert forall i :: 0 <= i < |table| ==> table[i] in table;
  }

  /** A number no entry carries is named "UNRECOGNIZED". */
  lemma UndeclaredIsUnrecognized(table: seq<Entry>, n: int)
    requires forall e :: e in table ==> e.number != n
    ensures !Declared(table, n)
    ensures ToJson(table, n) == UnrecognizedName
  {
    assert forall i :: 0 <= i < |table| ==> table[i] in table;
  }

  /** A number no entry carries is read as `UNRECOGNIZED` and named "UNRECOGNIZED". */
  lemma NumberNotDeclared(table: seq<Entry>, n: int)
    requires forall e :: e in table ==> e.number != n
    ensures FromJson(table, Num(n)) == Unrecognized
    ensures ToJson(table, n) == UnrecognizedName
  {
    assert forall i :: 0 <= i < |table| ==> table[i] in table;
  }

  /** The catch-all's own number and name are `UNRECOGNIZED`. */
  lemma CatchAllIsUnrecognized(table: seq<Entry>)
    requires WellFormed(table)
    ensures FromJson(table, Num(Unrecognized)) == Unrecognized
    ensures FromJson(table, Str(UnrecognizedName)) == Unrecognized
    ensures ToJson(table, Unrecognized) == UnrecognizedName
  {
  }

  /**
   * Everything outside the table is `UNRECOGNIZED`, including the catch-all's
   * own number and name, and `ToJson` of an undeclared number is its name.
   */
  lemma UnknownIsUnrecognized(table: seq<Entry>, j: Json, n: int)
    requires WellFormed(table)
    requires j.Other? || (j.Num? && !Declared(table, j.n)) || (j.Str? && forall i :: 0 <= i < |table| ==> table[i].name != j.s)
    requires !Declared(table, n)
    ensures FromJson(table, j) == Unrecognized
    ensures FromJson(table, Num(Unrecognized)) == Unrecognized
    ensures FromJson(table, Str(UnrecognizedName)) == Unrecognized
    ensures ToJson(table, n) == UnrecognizedName
    ensures ToJson(table, Unrecognized) == UnrecognizedName
  {
  }
}
