/** Small helpers shared by the packages: plain-object test, path separator
    normalisation, the platform-dependent command line of `spawn` and the
    promise `spawnAsync` makes of a child's end. */
module Utils {
  import opened Wrappers
  import opened Js

  /** `Object.prototype.toString.call(v)`. */
  function Tag(v: Value): string {
    match v
    case Undefined => "[object Undefined]"
    case Null => "[object Null]"
    case Bool(_) => "[object Boolean]"
    case Num(_) => "[object Number]"
    case Str(_) => "[object String]"
    case Arr(_) => "[object Array]"
    case Obj(_) => "[object Object]"
    case Func => "[object Function]"
  }

  /** isObject: compares the value's tag with the plain-object tag, which
      singles out exactly the objects (arrays, null, functions and primitives
      are rejected). */
  function IsObject(v: Value): (r: bool)
    ensures r <==> v.Obj?
  {
    Tag(v) == "[object Object]"
  }

  /** `s.replace(/\\/g, '/')`. */
  function ReplaceBackslashes(s: string): (r: string)
    ensures |r| == |s|
    ensures '\\' !in r
    ensures forall i :: 0 <= i < |s| && s[i] != '\\' ==> r[i] == s[i]
    ensures forall i :: 0 <= i < |s| && s[i] == '\\' ==> r[i] == '/'
  {
    if s == [] then []
    else [if s[0] == '\\' then '/' else s[0]] + ReplaceBackslashes(s[1..])
  }

  /** systemPathFormat, with the platform's path separator as a parameter. */
  function SystemPathFormat(p: Value, sep: char): (r: Value)
    ensures !(p.Str? && p.s != "") ==> r == p
    ensures sep == '/' ==> r == p
    ensures r.Str? <==> p.Str?
    ensures p.Str? && p.s != "" && sep != '/' ==>
      && |r.s| == |p.s|
      && '\\' !in r.s
      && (forall i :: 0 <= i < |p.s| && p.s[i] != '\\' ==> r.s[i] == p.s[i])
      && (forall i :: 0 <= i < |p.s| && p.s[i] == '\\' ==> r.s[i] == '/')
  {
    if Truthy(p) && p.Str? then
      if sep == '/' then p else Str(ReplaceBackslashes(p.s))
    else p
  }

  lemma ReplaceBackslashesFixes(s: string)
    requires '\\' !in s
    ensures ReplaceBackslashes(s) == s
  {
    var r := ReplaceBackslashes(s);
    assert forall i :: 0 <= i < |s| ==> r[i] == s[i];
  }

  /** Formatting an already formatted path changes nothing. */
  lemma {:induction false} SystemPathFormatIdempotent(p: Value, sep: char)
    ensures SystemPathFormat(SystemPathFormat(p, sep), sep) == SystemPathFormat(p, sep)
  {
    var r := SystemPathFormat(p, sep);
    if p.Str? && p.s != "" && sep != '/' {
      ReplaceBackslashesFixes(r.s);
    }
  }

  /** What `child_process.spawn` is asked to run. */
  datatype SpawnCall = SpawnCall(file: string, args: seq<string>, options: Value)

  /** The argument construction of spawn: on win32 the command goes through
      `cmd.exe /c`; options default to `{}`. */
  function Spawn(command: string, args: seq<string>, options: Value, platform: string): (r: SpawnCall)
    ensures platform == "win32" ==> r.file == "cmd.exe" && r.args == ["/c", command] + args
    ensures platform != "win32" ==> r.file == command && r.args == args
    ensures Truthy(options) ==> r.options == options
    ensures !Truthy(options) ==> r.options == Obj([])
  {
    var win32 := platform == "win32";
    var cmd := if win32 then "cmd.exe" else command;
    var cmdArgs := if win32 then ["/c"] + [command] + args else args;
    SpawnCall(cmd, cmdArgs, if Truthy(options) then options else Obj([]))
  }

  /** How a spawned child ends: it exits with a code, or it cannot be
      started (its 'error' event). */
  datatype ChildEvent = Exited(code: int) | SpawnError

  /** spawnAsync: the promise resolves with the exit code and rejects when
      the process cannot be started. */
  function SpawnAsync(ev: ChildEvent): (r: Result<int, Error>)
    ensures r.Success? <==> ev.Exited?
    ensures r.Success? ==> r.value == ev.code
    ensures r.Failure? ==> r.error == SpawnFailed
  {
    match ev
    case Exited(code) => Success(code)
    case SpawnError => Failure(SpawnFailed)
  }
}
