/**
 * Spreadsheet rows as JavaScript objects: an ordered list of keyed cells.
 * Reading a key that is not there gives `undefined`; assigning a key that
 * is there replaces its value in place, and assigning a new key appends it,
 * as property insertion order does.
 */
module Records {
  import opened Wrappers
  import opened JsText
  import opened JsNumber

  /** A cell value: a string, a (finite) number, or `undefined`/`null`. */
  datatype Cell = Str(s: string) | Num(n: real) | Absent

  /** JavaScript truthiness: the empty string, 0, `undefined` and `null` are falsy. */
  predicate Truthy(c: Cell) {
    match c
    case Str(s) => s != ""
    case Num(n) => n != 0.0
    case Absent => false
  }

  /** `a || b` */
  function Or(a: Cell, b: Cell): (r: Cell)
    ensures Truthy(r) <==> Truthy(a) || Truthy(b)
    ensures r == a || r == b
  {
    if Truthy(a) then a else b
  }

  /** `parseFloat(c)`: a number reads as itself, `undefined` and `null` as NaN (`None`). */
  function ParseFloat(c: Cell): Option<real> {
    match c
    case Str(s) => ParseDecimal(s)
    case Num(n) => Some(n)
    case Absent => None
  }

  /** `parseFloat(c) || 0`: NaN becomes 0. */
  function NumberOrZero(c: Cell): real {
    ParseFloat(c).GetOr(0.0)
  }

  /** The text of an integer, with a minus sign when it is negative. */
  function IntText(i: int): string {
    if i < 0 then "-" + NatText(-i) else NatText(i)
  }

  /** `String(c)`, as a property key or a template literal prints the cell. */
  function CellText(c: Cell): string {
    match c
    case Str(s) => s
    case Num(n) => IntText(n.Floor)
    case Absent => "undefined"
  }

  datatype Field = Field(key: string, value: Cell)

  type Row = seq<Field>

  /** `Object.keys(row)`, in insertion order. */
  function Keys(row: Row): seq<string> {
    seq(|row|, i requires 0 <= i < |row| => row[i].key)
  }

  lemma KeysCons(row: Row)
    requires row != []
    ensures Keys(row) == [row[0].key] + Keys(row[1..])
  {
  }

  /** No key occurs twice, as in every JavaScript object. */
  predicate UniqueKeys(row: Row) {
    row == [] || (row[0].key !in Keys(row[1..]) && UniqueKeys(row[1..]))
  }

  /** `row[k]` */
  function Get(row: Row, k: string): Cell {
    if row == [] then Absent
    else if row[0].key == k then row[0].value
    else Get(row[1..], k)
  }

  /** A key the object does not have reads as `undefined`. */
  lemma {:induction false} GetMissing(row: Row, k: string)
    requires k !in Keys(row)
    ensures Get(row, k) == Absent
  {
    if row != [] {
      KeysCons(row);
      GetMissing(row[1..], k);
    }
  }

  /**
   * `row[k] = v`: afterwards `k` holds `v` and every other key reads as
   * before (SetKeys states what happens to the key order).
   */
  function Set(row: Row, k: string, v: Cell): (r: Row)
    ensures Get(r, k) == v
    ensures forall k' :: k' != k ==> Get(r, k') == Get(row, k')
  {
    if row == [] then [Field(k, v)]
    else if row[0].key == k then [Field(k, v)] + row[1..]
    else [row[0]] + Set(row[1..], k, v)
  }

  /** The key order is kept by an assignment, with the key appended when it is new. */
  lemma {:induction false} SetKeys(row: Row, k: string, v: Cell)
    ensures Keys(Set(row, k, v)) == if k in Keys(row) then Keys(row) else Keys(row) + [k]
  {
    if row != [] {
      KeysCons(row);
      KeysCons(Set(row, k, v));
      if row[0].key != k {
        SetKeys(row[1..], k, v);
      }
    }
  }

  /** An assignment keeps the keys of an object distinct. */
  lemma {:induction false} SetUnique(row: Row, k: string, v: Cell)
    requires UniqueKeys(row)
    ensures UniqueKeys(Set(row, k, v))
  {
    if row != [] && row[0].key != k {
      SetUnique(row[1..], k, v);
      SetKeys(row[1..], k, v);
      assert Set(row, k, v)[1..] == Set(row[1..], k, v);
    }
  }

  /** The old keys come first after an assignment, in their old order. */
  lemma SetKeepsKeyOrder(row: Row, k: string, v: Cell)
    ensures |Keys(Set(row, k, v))| >= |row|
    ensures Keys(Set(row, k, v))[..|row|] == Keys(row)
  {
    SetKeys(row, k, v);
  }

  /** `row[k0] || row[k1] || ...`: the first truthy value, or the last key's value when none is truthy. */
  function Lookup(row: Row, keys: seq<string>): Cell
    requires keys != []
  {
    if |keys| == 1 then Get(row, keys[0]) else Or(Get(row, keys[0]), Lookup(row, keys[1..]))
  }

  /** The first key holding a truthy value decides the lookup. */
  lemma {:induction false} LookupFirstTruthy(row: Row, keys: seq<string>, j: nat)
    requires j < |keys| && Truthy(Get(row, keys[j]))
    requires forall i :: 0 <= i < j ==> !Truthy(Get(row, keys[i]))
    ensures Lookup(row, keys) == Get(row, keys[j])
  {
    if j > 0 {
      assert keys[1..][j - 1] == keys[j];
      LookupFirstTruthy(row, keys[1..], j - 1);
    }
  }

  /** With no truthy value under any key, the lookup gives the last key's value. */
  lemma {:induction false} LookupNoneTruthy(row: Row, keys: seq<string>)
    requires keys != []
    requires forall i :: 0 <= i < |keys| ==> !Truthy(Get(row, keys[i]))
    ensures Lookup(row, keys) == Get(row, keys[|keys| - 1])
  {
    if |keys| > 1 {
      assert forall i :: 0 <= i < |keys| - 1 ==> keys[1..][i] == keys[i + 1];
      LookupNoneTruthy(row, keys[1..]);
    }
  }
}
