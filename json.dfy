/**
 * JSON values as they are built in Python and sent as request bodies, or
 * received decoded. An object maps each key to one value, as a Python
 * dict does.
 */
module Json {
  import opened Wrappers

  datatype Json =
    | Null
    | Bool(b: bool)
    | Int(n: int)
    | Num(r: real)
    | Str(s: string)
    | Arr(items: seq<Json>)
    | Obj(members: map<string, Json>)

  /** `j.get(key)` on an object; nothing for any other JSON value. */
  function Get(j: Json, key: string): Option<Json> {
    if j.Obj? && key in j.members then Some(j.members[key]) else None
  }

  // ---------------------------------------------------------------------
  // Lists of strings and lists of lists of strings
  // ---------------------------------------------------------------------

  function FromStrings(ss: seq<string>): (items: seq<Json>)
    ensures |items| == |ss|
  {
    if ss == [] then [] else [Str(ss[0])] + FromStrings(ss[1..])
  }

  function ToStrings(items: seq<Json>): Option<seq<string>> {
    if items == [] then Some([])
    else if !items[0].Str? then None
    else match ToStrings(items[1..])
      case None => None
      case Some(rest) => Some([items[0].s] + rest)
  }

  function FromStringRows(rows: seq<seq<string>>): (items: seq<Json>)
    ensures |items| == |rows|
  {
    if rows == [] then [] else [Arr(FromStrings(rows[0]))] + FromStringRows(rows[1..])
  }

  function ToStringRows(items: seq<Json>): Option<seq<seq<string>>> {
    if items == [] then Some([])
    else if !items[0].Arr? then None
    else match (ToStrings(items[0].items), ToStringRows(items[1..]))
      case (Some(row), Some(rest)) => Some([row] + rest)
      case _ => None
  }

  /** Decoding a list of strings undoes encoding it. */
  lemma {:induction false} StringsRoundTrip(ss: seq<string>)
    ensures ToStrings(FromStrings(ss)) == Some(ss)
    decreases |ss|
  {
    if ss != [] {
      var items := FromStrings(ss);
      assert items == [Str(ss[0])] + FromStrings(ss[1..]);
      assert items[0] == Str(ss[0]) && items[1..] == FromStrings(ss[1..]);
      StringsRoundTrip(ss[1..]);
      assert ss == [ss[0]] + ss[1..];
    }
  }

  /** Decoding a list of lists of strings undoes encoding it. */
  lemma {:induction false} StringRowsRoundTrip(rows: seq<seq<string>>)
    ensures ToStringRows(FromStringRows(rows)) == Some(rows)
    decreases |rows|
  {
    if rows != [] {
      var items := FromStringRows(rows);
      assert items == [Arr(FromStrings(rows[0]))] + FromStringRows(rows[1..]);
      assert items[0] == Arr(FromStrings(rows[0])) && items[1..] == FromStringRows(rows[1..]);
      StringsRoundTrip(rows[0]);
      StringRowsRoundTrip(rows[1..]);
      assert rows == [rows[0]] + rows[1..];
    }
  }
}
