/**
 * A JSON-like view of the PHP values a SOAP response decodes to: scalars,
 * ordered arrays with integer or string keys, and objects whose properties
 * are named.  ObjToArray turns every object, at any depth, into the array of
 * its properties.
 */
module PhpValues {

  datatype Key = IntKey(i: int) | StrKey(s: string)

  datatype Value =
    | Null
    | Bool(b: bool)
    | Int(i: int)
    | Str(s: string)
    | Arr(entries: seq<Entry>)
    | Obj(props: seq<Prop>)

  datatype Entry = Entry(key: Key, val: Value)

  datatype Prop = Prop(name: string, val: Value)

  /** No object occurs anywhere in the value. */
  predicate Plain(v: Value)
  {
    match v
    case Obj(_) => false
    case Arr(es) => forall i :: 0 <= i < |es| ==> Plain(es[i].val)
    case _ => true
  }

  /**
   * An object becomes the array of its properties, keyed by property name,
   * and every array is mapped element by element with its keys kept.
   */
  function ObjToArray(v: Value): (r: Value)
    ensures Plain(r)
    ensures v.Obj? ==> (r.Arr? && |r.entries| == |v.props| &&
      forall i :: 0 <= i < |v.props| ==> r.entries[i].key == StrKey(v.props[i].name))
    ensures v.Arr? ==> (r.Arr? && |r.entries| == |v.entries| &&
      forall i :: 0 <= i < |v.entries| ==> r.entries[i].key == v.entries[i].key)
    ensures !v.Obj? && !v.Arr? ==> r == v
  {
    match v
    case Obj(ps) =>
      Arr(seq(|ps|, i requires 0 <= i < |ps| => Entry(StrKey(ps[i].name), ObjToArray(ps[i].val))))
    case Arr(es) =>
      Arr(seq(|es|, i requires 0 <= i < |es| => Entry(es[i].key, ObjToArray(es[i].val))))
    case _ => v
  }

  /** A value without objects comes back unchanged. */
  lemma {:induction false} ObjToArrayOfPlain(v: Value)
    requires Plain(v)
    ensures ObjToArray(v) == v
  {
    if v.Arr? {
      var es := v.entries;
      forall i | 0 <= i < |es| ensures ObjToArray(es[i].val) == es[i].val {
        ObjToArrayOfPlain(es[i].val);
      }
      assert ObjToArray(v).entries == es;
    }
  }

  /** Converting twice is converting once. */
  lemma ObjToArrayIdempotent(v: Value)
    ensures ObjToArray(ObjToArray(v)) == ObjToArray(v)
  {
    ObjToArrayOfPlain(ObjToArray(v));
  }

  /** The value of the first property named n, or null when the object has none. */
  function Property(ps: seq<Prop>, n: string): (r: Value)
    ensures r != Null ==> exists i :: 0 <= i < |ps| && ps[i] == Prop(n, r)
  {
    if ps == [] then Null
    else if ps[0].name == n then ps[0].val
    else Property(ps[1..], n)
  }

  /**
   * Reading key n from a converted object gives the converted value of its
   * first property named n: the conversion keeps the data, not only the keys.
   */
  lemma {:induction false} PropertyConverted(ps: seq<Prop>, n: string)
    ensures Index(ObjToArray(Obj(ps)), StrKey(n)) == ObjToArray(Property(ps, n))
  {
    if ps != [] && ps[0].name != n {
      assert ObjToArray(Obj(ps)).entries[1..] == ObjToArray(Obj(ps[1..])).entries;
      PropertyConverted(ps[1..], n);
    }
  }

  /** Reading key k from a converted array gives the converted value stored under k. */
  lemma {:induction false} EntryConverted(es: seq<Entry>, k: Key)
    ensures Index(ObjToArray(Arr(es)), k) == ObjToArray(Index(Arr(es), k))
  {
    if es != [] && es[0].key != k {
      assert ObjToArray(Arr(es)).entries[1..] == ObjToArray(Arr(es[1..])).entries;
      EntryConverted(es[1..], k);
    }
  }

  /** PHP empty(): null, false, 0, "", "0" and the empty array. */
  predicate PhpEmpty(v: Value)
  {
    match v
    case Null => true
    case Bool(b) => !b
    case Int(i) => i == 0
    case Str(s) => s == "" || s == "0"
    case Arr(es) => es == []
    case Obj(_) => false
  }

  /** The value stored under key k in an array, or null when there is none. */
  function Index(v: Value, k: Key): (r: Value)
    ensures r != Null ==> v.Arr? && exists i :: 0 <= i < |v.entries| && v.entries[i] == Entry(k, r)
  {
    if v.Arr? then Lookup(v.entries, k) else Null
  }

  function Lookup(es: seq<Entry>, k: Key): (r: Value)
    ensures r != Null ==> exists i :: 0 <= i < |es| && es[i] == Entry(k, r)
  {
    if es == [] then Null
    else if es[0].key == k then es[0].val
    else Lookup(es[1..], k)
  }

  /** A list of strings as PHP holds it: an array keyed 0, 1, 2, ... */
  function StringList(l: seq<string>): (r: Value)
    ensures Plain(r)
  {
    Arr(seq(|l|, i requires 0 <= i < |l| => Entry(IntKey(i), Str(l[i]))))
  }

}
