/**
 * The part of PHP's value model the filter relies on: configuration values are
 * dynamically typed, and the filter tests them with empty(), is_array(), `==`,
 * array_key_exists() and uses them as array keys.
 */
module Php {
  import opened Wrappers

  /**
   * A PHP value. An array is an ordered list of entries; PHP never repeats a key in
   * an array, and an integer key is written here as its decimal string (PHP itself
   * turns the string "5" into the key 5, so both spellings name the same key).
   */
  datatype Value =
    | Null
    | Bool(b: bool)
    | Int(i: int)
    | Str(s: string)
    | Arr(entries: seq<Entry>)

  datatype Entry = Entry(key: string, val: Value)

  /** empty() on a string: only "" and "0" are empty. */
  predicate EmptyString(s: string) {
    s == "" || s == "0"
  }

  /** empty(): null, false, 0, "", "0" and the empty array. A missing key reads as null. */
  predicate Empty(v: Value) {
    match v
    case Null => true
    case Bool(b) => !b
    case Int(i) => i == 0
    case Str(s) => EmptyString(s)
    case Arr(entries) => entries == []
  }

  /** array_key_exists(key, array) */
  predicate HasKey(entries: seq<Entry>, key: string) {
    exists i :: 0 <= i < |entries| && entries[i].key == key
  }

  /** `$array[key]`, null when the key is missing. */
  function Get(entries: seq<Entry>, key: string): Value {
    if entries == [] then Null
    else if entries[0].key == key then entries[0].val
    else Get(entries[1..], key)
  }

  /** The values of an array, in order, without their keys. */
  function ValuesOf(entries: seq<Entry>): (vs: seq<Value>)
    ensures |vs| == |entries|
    ensures forall i :: 0 <= i < |entries| ==> vs[i] == entries[i].val
  {
    if entries == [] then [] else [entries[0].val] + ValuesOf(entries[1..])
  }

  /**
   * PHP 8's `v == uri` for a right operand that is a non-numeric string other than ""
   * and "0" (every SAML URI is one). A string is compared as a string; a boolean is
   * compared with the truth value of the URI, which is true; null, an integer and an
   * array never equal such a string.
   */
  predicate LooselyEqualsUri(v: Value, uri: string) {
    v == Str(uri) || v == Bool(true)
  }

  /** The array key PHP uses for a value written as an offset; an array is an illegal offset. */
  function ArrayKey(v: Value): Option<string> {
    match v
    case Null => Some("")
    case Bool(b) => Some(if b then "1" else "0")
    case Int(i) => Some(IntToString(i))
    case Str(s) => Some(s)
    case Arr(_) => None
  }

  function IntToString(i: int): string {
    if i < 0 then "-" + NatToString(-i) else NatToString(i)
  }

  function NatToString(n: nat): string
    decreases n
  {
    if n < 10 then ["0123456789"[n]] else NatToString(n / 10) + ["0123456789"[n % 10]]
  }
}
