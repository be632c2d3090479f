/** The slice of JavaScript's value model that the command pipeline touches:
    primitive values, arrays, and plain objects seen as the ordered list of
    their own enumerable properties (the order `Object.keys` reports). */
module Js {
  /** A JavaScript value. Numbers are integers (NaN, -0 and fractions are not
      modelled); `Func` stands for any callable. */
  datatype Value =
    | Undefined
    | Null
    | Bool(b: bool)
    | Num(n: int)
    | Str(s: string)
    | Arr(items: seq<Value>)
    | Obj(props: seq<(string, Value)>)
    | Func

  /** The own enumerable properties of an object, in key order. */
  type Props = seq<(string, Value)>

  /** The exceptions the core throws or lets escape. */
  datatype Error =
    | OptionsMissing            // Package: options argument is falsy
    | OptionsNotObject          // Package: options argument is not a plain object
    | ArgvMissing               // Command: argv is falsy
    | ArgvNotArray              // Command: argv is not an array
    | ArgvEmpty                 // Command: argv has no element
    | NodeTooOld                // Command: runtime below the lowest supported version
    | InitNotImplemented        // Command: base init reached
    | ExecNotImplemented        // Command: base exec reached
    | NoTemplate                // InitCommand: template list is empty
    | RegistryUnavailable       // registry request rejected
    | StatusRejected(status: int) // registry answered with a status outside 2xx
    | InstallFailed             // npminstall rejected
    | SpawnFailed               // a child process could not be started
    | TypeError(what: string)   // a JavaScript TypeError raised by the code as written

  /** JavaScript truthiness. */
  predicate Truthy(v: Value) {
    match v
    case Undefined => false
    case Null => false
    case Bool(b) => b
    case Num(n) => n != 0
    case Str(s) => s != ""
    case _ => true
  }

  predicate HasKey(props: Props, key: string) {
    exists i :: 0 <= i < |props| && props[i].0 == key
  }

  /** `o[key]` on an object with properties `props`: the value of the first
      property named `key`, or undefined when there is none. */
  function Get(props: Props, key: string): (r: Value)
    ensures !HasKey(props, key) ==> r == Undefined
    ensures HasKey(props, key) ==> exists i :: 0 <= i < |props| && props[i] == (key, r)
  {
    if props == [] then Undefined
    else if props[0].0 == key then props[0].1
    else
      var r := Get(props[1..], key);
      assert HasKey(props[1..], key) ==> exists i :: 0 <= i < |props[1..]| && props[1..][i] == (key, r);
      assert HasKey(props, key) ==> HasKey(props[1..], key) by {
        if HasKey(props, key) {
          var i :| 0 <= i < |props| && props[i].0 == key;
          assert i > 0 && props[1..][i - 1].0 == key;
        }
      }
      r
  }

  /** `v[key]` for a property read that cannot throw: properties of objects,
      undefined for every other kind of value. */
  function Field(v: Value, key: string): Value {
    if v.Obj? then Get(v.props, key) else Undefined
  }

  predicate StartsWith(s: string, c: char) {
    |s| > 0 && s[0] == c
  }
}
