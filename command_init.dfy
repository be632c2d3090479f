/** The `init` command: a Command whose init reads the project name and the
    force flag, and whose exec prepares a project directory — confirming,
    and possibly emptying, a non-empty working directory — before collecting
    the project's description through prompts.

    As written, the step after the directory check calls `isValidProjectName`,
    which the utils package does not export; the call throws inside an async
    promise executor, so the promise prepare returns never settles and the
    chain stalls there. The later steps (template filtering, prompt list,
    merging of the answers, class name) are modelled as the functions they
    would be once that call succeeds. */
module CommandInit {
  import opened Wrappers
  import opened Js
  import opened Semver
  import CommandBase

  /** A project template as the template list describes it. */
  datatype Template = Template(
    id: string, name: string, npmName: string, version: string, kind: string,
    installCommand: string, startCommand: string, tag: seq<string>, ignore: seq<string>)

  /** The fixed template list prepare uses. */
  const DefaultTemplates: seq<Template> := [
    Template("60dd5af21f683b5c176f0b4e", "React H5模板", "test-cli-template-react-h5", "1.0.0", "normal",
             "npm install --registry=https://registry.npm.taobao.org", "npm run start",
             ["project"], ["**/public/**"])
  ]

  /** The TypeError raised by calling the missing `isValidProjectName`. */
  const MissingValidator: Error := TypeError("isValidProjectName is not a function")

  /** The TypeError raised by reading `debug` from a nullish `_options`. */
  function DebugReadError(options: Value): Error {
    TypeError("Cannot read properties of " + (if options.Null? then "null" else "undefined") + " (reading 'debug')")
  }

  /** The interactive questions, in the order they can be asked. */
  datatype Prompt = AskContinue | AskConfirmDelete | AskType | AskName | AskVersion | AskTemplate(choices: seq<string>)

  /** The user's answers to the two confirmation questions. */
  datatype Answers = Answers(isContinue: bool, confirmDelete: bool)

  /** How the promise returned by prepare ends. */
  datatype PrepareOutcome = Returned(info: Value) | Rejected(error: Error) | NeverSettles(unhandled: Error)

  /** A directory entry that does not count against emptiness. */
  predicate Hidden(entry: string) {
    StartsWith(entry, '.') || entry == "node_modules"
  }

  function VisibleEntries(entries: seq<string>): (r: seq<string>)
    ensures |r| <= |entries|
    ensures forall e :: e in r <==> e in entries && !Hidden(e)
  {
    if entries == [] then []
    else (if Hidden(entries[0]) then [] else [entries[0]]) + VisibleEntries(entries[1..])
  }

  /** isDirEmpty over the entries the directory listing returns. */
  function IsDirEmpty(entries: seq<string>): (r: bool)
    ensures r <==> forall e :: e in entries ==> Hidden(e)
  {
    var visible := VisibleEntries(entries);
    assert visible != [] ==> visible[0] in visible;
    |visible| <= 0
  }

  /** The working directory, whose listing prepare inspects and may empty. */
  class Directory {
    var entries: seq<string>

    constructor(entries: seq<string>)
      ensures this.entries == entries
    {
      this.entries := entries;
    }

    /** fse.emptyDirSync: removes every entry, hidden ones included. */
    method Empty()
      modifies this
      ensures entries == []
    {
      entries := [];
    }
  }

  /** What prepare does, as a value: how its promise ends, which questions it
      asked, and what the directory holds afterwards. */
  datatype Preparation = Preparation(outcome: PrepareOutcome, asked: seq<Prompt>, entries: seq<string>)

  function Prepared(templates: seq<Template>, entries: seq<string>, force: Value, answers: Answers): (r: Preparation)
    ensures r.outcome.Rejected? <==> templates == []
    ensures r.outcome.Rejected? ==> r.outcome.error == NoTemplate && r.asked == [] && r.entries == entries
    // the directory is either left alone or emptied, and emptied only when it
    // held visible entries and the user confirmed the deletion when asked
    ensures r.entries == entries || r.entries == []
    ensures r.entries != entries ==>
      !IsDirEmpty(entries) && answers.confirmDelete && AskConfirmDelete in r.asked
    ensures IsDirEmpty(entries) ==> r.asked == [] && r.entries == entries
    // with force set, the user is not asked whether to continue
    ensures Truthy(force) ==> AskContinue !in r.asked
    ensures templates != [] && !IsDirEmpty(entries) && !Truthy(force) ==> |r.asked| >= 1 && r.asked[0] == AskContinue
    // once past that question the user is asked to confirm, and the answer decides
    ensures templates != [] && !IsDirEmpty(entries) && (Truthy(force) || answers.isContinue) ==>
      AskConfirmDelete in r.asked && (r.entries == [] <==> answers.confirmDelete)
    // declining to continue resolves with nothing and leaves the directory alone
    ensures r.outcome.Returned? <==>
      templates != [] && !IsDirEmpty(entries) && !Truthy(force) && !answers.isContinue
    ensures r.outcome.Returned? ==> r.outcome.info == Undefined && r.entries == entries
    // each of the two questions is asked at most once, continue first; a
    // decline asks nothing more
    ensures |r.asked| <= 2
    ensures forall q :: q in r.asked ==> q == AskContinue || q == AskConfirmDelete
    ensures AskContinue in r.asked ==> r.asked[0] == AskContinue
    ensures AskConfirmDelete in r.asked ==> r.asked[|r.asked| - 1] == AskConfirmDelete
    ensures |r.asked| == 2 ==> r.asked == [AskContinue, AskConfirmDelete]
    ensures r.outcome.Returned? ==> r.asked == [AskContinue]
    // every other path reaches the project-name check, which never settles
    ensures r.outcome.NeverSettles? ==> r.outcome.unhandled == MissingValidator
  {
    if templates == [] then Preparation(Rejected(NoTemplate), [], entries)
    else if IsDirEmpty(entries) then Preparation(NeverSettles(MissingValidator), [], entries)
    else if !Truthy(force) && !answers.isContinue then Preparation(Returned(Undefined), [AskContinue], entries)
    else
      var asked := (if Truthy(force) then [] else [AskContinue]) + [AskConfirmDelete];
      Preparation(NeverSettles(MissingValidator), asked, if answers.confirmDelete then [] else entries)
  }

  /** How exec ends once prepare's promise has ended as `prep`: a rejection
      is logged and then `_options.debug` is read, which throws when the
      options are nullish. */
  function ExecOutcome(prep: PrepareOutcome, options: Value): (r: CommandBase.StepOutcome)
    ensures prep.Returned? ==> r.Done?
    ensures prep.NeverSettles? ==> r == CommandBase.Stalled(prep.unhandled)
    ensures prep.Rejected? ==> (r.Done? <==> !(options.Undefined? || options.Null?))
    ensures r.Threw? ==> prep.Rejected? && r.error.TypeError?
  {
    match prep
    case Returned(_) => CommandBase.Done
    case Rejected(_) =>
      if options.Undefined? || options.Null? then CommandBase.Threw(DebugReadError(options)) else CommandBase.Done
    case NeverSettles(e) => CommandBase.Stalled(e)
  }

  /** What exec itself logs: the message of a rejected prepare. */
  function ExecLog(prep: PrepareOutcome): seq<Error> {
    if prep.Rejected? then [prep.error] else []
  }

  /** `options || {}`. */
  function OrEmpty(v: Value): Value {
    if Truthy(v) then v else Obj([])
  }

  class InitCommand {
    /** The Command part of the object. */
    const base: CommandBase.Command
    var projectName: Value
    var force: Value
    var template: seq<Template>

    constructor(argv: seq<Value>)
      requires |argv| >= 1
      ensures fresh(base)
      ensures base.argv == argv && base.options == Undefined
      ensures base.trace == [] && base.outcomes == [] && base.logged == []
      ensures projectName == Undefined && force == Undefined && template == []
    {
      base := new CommandBase.Command(argv);
      projectName := Undefined;
      force := Undefined;
      template := [];
    }

    /** init: the first argument is the project name (empty when there is
        none); the force flag comes from the options, if any. */
    method Init() returns (out: CommandBase.StepOutcome)
      modifies this`projectName, this`force
      ensures out == CommandBase.Done
      ensures projectName == (if |base.argv| > 0 then base.argv[0] else Str(""))
      ensures force == Field(OrEmpty(base.options), "force")
    {
      projectName := if |base.argv| > 0 then base.argv[0] else Str("");
      force := Field(OrEmpty(base.options), "force");
      out := CommandBase.Done;
    }

    /** prepare, with the template list, the working directory and the
        user's answers as parameters. */
    method Prepare(templates: seq<Template>, cwd: Directory, answers: Answers)
      returns (out: PrepareOutcome, asked: seq<Prompt>)
      modifies this`template, cwd
      ensures Preparation(out, asked, cwd.entries) == Prepared(templates, old(cwd.entries), force, answers)
      ensures template == if templates == [] then old(template) else templates
    {
      if templates == [] {
        return Rejected(NoTemplate), [];
      }
      template := templates;
      asked := [];
      if !IsDirEmpty(cwd.entries) {
        var isContinue := false;
        if !Truthy(force) {
          asked := asked + [AskContinue];
          isContinue := answers.isContinue;
          if !isContinue {
            return Returned(Undefined), asked;
          }
        }
        if Truthy(force) || isContinue {
          asked := asked + [AskConfirmDelete];
          if answers.confirmDelete {
            cwd.Empty();
          }
        }
      }
      out := NeverSettles(MissingValidator);
    }

    /** exec: awaits prepare and logs a rejection. */
    method Exec(templates: seq<Template>, cwd: Directory, answers: Answers)
      returns (out: CommandBase.StepOutcome, asked: seq<Prompt>)
      modifies this`template, cwd, base`logged
      ensures var p := Prepared(templates, old(cwd.entries), force, answers);
        && out == ExecOutcome(p.outcome, base.options)
        && asked == p.asked && cwd.entries == p.entries
        && base.logged == old(base.logged) + ExecLog(p.outcome)
      ensures template == if templates == [] then old(template) else templates
    {
      var prep;
      prep, asked := Prepare(templates, cwd, answers);
      if prep.Rejected? {
        base.logged := base.logged + [prep.error];
      }
      out := ExecOutcome(prep, base.options);
    }

    /** The chain the constructor starts, with this class's init and exec. */
    method Run(runtime: Version, cwd: Directory, answers: Answers) returns (asked: seq<Prompt>)
      requires base.trace == [] && base.outcomes == []
      modifies this`projectName, this`force, this`template, cwd, base`trace, base`outcomes, base`logged
      ensures CommandBase.IsChainRun(base.trace, base.outcomes)
      ensures !Gte(runtime, CommandBase.LowestNodeVersion) ==>
        && base.trace == [CommandBase.CheckNodeVersion]
        && base.logged == old(base.logged) + [NodeTooOld]
        && cwd.entries == old(cwd.entries) && asked == []
        && projectName == old(projectName) && force == old(force) && template == old(template)
      ensures Gte(runtime, CommandBase.LowestNodeVersion) ==>
        && base.trace == CommandBase.Lifecycle
        && projectName == (if |base.argv| > 0 then base.argv[0] else Str(""))
        && force == Field(OrEmpty(base.options), "force")
        && template == DefaultTemplates
        && var p := Prepared(DefaultTemplates, old(cwd.entries), force, answers);
        && base.outcomes[3] == ExecOutcome(p.outcome, base.options)
        && asked == p.asked && cwd.entries == p.entries
        && base.logged == old(base.logged) + ExecLog(p.outcome) + CommandBase.ChainLog(base.outcomes)
    {
      asked := [];
      var out := CommandBase.NodeVersionCheck(runtime);
      base.Record(CommandBase.CheckNodeVersion, out);
      if out.Done? {
        out := base.InitArgs();
        base.Record(CommandBase.Step.InitArgs, out);
        out := Init();
        base.Record(CommandBase.Step.Init, out);
        out, asked := Exec(DefaultTemplates, cwd, answers);
        base.Record(CommandBase.Step.Exec, out);
      }
      if out.Threw? {
        base.logged := base.logged + [out.error];
      }
    }
  }

  /** commandInit: validates argv as the Command constructor does, then
      builds the command. */
  method NewInitCommand(argv: Value) returns (r: Result<InitCommand, Error>)
    ensures r.Success? <==> CommandBase.CheckArgv(argv).Success?
    ensures r.Failure? ==> r.error == CommandBase.CheckArgv(argv).error
    ensures r.Success? ==> fresh(r.value) && fresh(r.value.base) && r.value.base.argv == argv.items
    ensures r.Success? ==> var b := r.value.base;
      b.options == Undefined && b.trace == [] && b.outcomes == [] && b.logged == []
  {
    var checked := CommandBase.CheckArgv(argv);
    if checked.Failure? {
      return Failure(checked.error);
    }
    var c := new InitCommand(checked.value);
    r := Success(c);
  }

  /** `commandInit(argv)` followed by the chain it starts. With the options
      never set, force is off, so a non-empty directory always prompts; the
      run ends either with the user declining or stalled at the
      project-name check, and logs nothing unless the runtime is too old. */
  method InitAndRun(argv: Value, runtime: Version, cwd: Directory, answers: Answers)
    returns (cmd: Result<InitCommand, Error>, asked: seq<Prompt>)
    modifies cwd
    ensures cmd.Success? <==> CommandBase.CheckArgv(argv).Success?
    ensures cmd.Failure? ==> cmd.error == CommandBase.CheckArgv(argv).error && cwd.entries == old(cwd.entries) && asked == []
    ensures cmd.Success? && !Gte(runtime, CommandBase.LowestNodeVersion) ==>
      cmd.value.base.logged == [NodeTooOld] && cwd.entries == old(cwd.entries) && asked == []
    ensures cmd.Success? && Gte(runtime, CommandBase.LowestNodeVersion) ==>
      && cmd.value.base.trace == CommandBase.Lifecycle
      && |cmd.value.base.outcomes| == 4
      && cmd.value.base.logged == []
      && cmd.value.projectName == argv.items[0]
      && var last := cmd.value.base.outcomes[3];
      && (last.Done? <==> !IsDirEmpty(old(cwd.entries)) && !answers.isContinue)
      && (!last.Done? ==> last == CommandBase.Stalled(MissingValidator))
      && (!IsDirEmpty(old(cwd.entries)) ==> |asked| >= 1 && asked[0] == AskContinue)
      && (cwd.entries != old(cwd.entries) ==> answers.isContinue && answers.confirmDelete)
      && (!IsDirEmpty(old(cwd.entries)) && answers.isContinue ==>
            AskConfirmDelete in asked && (cwd.entries == [] <==> answers.confirmDelete))
      && (IsDirEmpty(old(cwd.entries)) ==> cwd.entries == old(cwd.entries) && asked == [])
      && (cwd.entries == old(cwd.entries) || cwd.entries == [])
      && var p := Prepared(DefaultTemplates, old(cwd.entries), Undefined, answers);
      && asked == p.asked && cwd.entries == p.entries
  {
    cmd := NewInitCommand(argv);
    asked := [];
    if cmd.Success? {
      var c := cmd.value;
      asked := c.Run(runtime, cwd, answers);
    }
  }

  // ---- The steps after the project-name check ----

  /** `this.template.filter(t => t.tag.includes(type))`. */
  function FilterByTag(templates: seq<Template>, kind: string): (r: seq<Template>)
    ensures |r| <= |templates|
    ensures forall t :: t in r <==> t in templates && kind in t.tag
  {
    if templates == [] then []
    else (if kind in templates[0].tag then [templates[0]] else []) + FilterByTag(templates[1..], kind)
  }

  /** Filtering keeps order and multiplicity: one more template at the end
      adds it at the end of the result exactly when it carries the tag. */
  lemma {:induction false} FilterByTagAppend(templates: seq<Template>, t: Template, kind: string)
    ensures FilterByTag(templates + [t], kind) == FilterByTag(templates, kind) + (if kind in t.tag then [t] else [])
  {
    if templates == [] {
      assert [t][1..] == [];
    } else {
      assert (templates + [t])[1..] == templates[1..] + [t];
      FilterByTagAppend(templates[1..], t, kind);
    }
  }

  /** The template choices offered: one per template, its npm name. */
  function NpmNames(templates: seq<Template>): (r: seq<string>)
    ensures |r| == |templates|
    ensures forall i :: 0 <= i < |templates| ==> r[i] == templates[i].npmName
  {
    if templates == [] then [] else [templates[0].npmName] + NpmNames(templates[1..])
  }

  /** The second prompt list: a name question only when the argument was not
      a valid name, then version, then the template choice. */
  function ProjectPrompts(nameValid: bool, templates: seq<Template>): (r: seq<Prompt>)
    ensures |r| == if nameValid then 2 else 3
    ensures (AskName in r) <==> !nameValid
    ensures r[|r| - 2] == AskVersion && r[|r| - 1] == AskTemplate(NpmNames(templates))
  {
    (if nameValid then [] else [AskName]) + [AskVersion, AskTemplate(NpmNames(templates))]
  }

  /** The keys of a property list, in order. */
  function Keys(props: Props): (r: seq<string>)
    ensures |r| == |props|
    ensures forall i :: 0 <= i < |props| ==> r[i] == props[i].0
  {
    if props == [] then [] else [props[0].0] + Keys(props[1..])
  }

  /** The property list of a JavaScript object has no repeated key. */
  predicate DistinctKeys(props: Props) {
    forall i, j :: 0 <= i < j < |props| ==> props[i].0 != props[j].0
  }

  /** A key that is not present reads as undefined. */
  lemma AbsentIsUndefined(props: Props, k: string)
    requires k !in Keys(props)
    ensures Get(props, k) == Undefined
  {
  }

  /** `o[key] = val`: an existing key keeps its position, a new one goes last. */
  function SetProp(props: Props, key: string, val: Value): (r: Props)
    ensures Keys(r) == if key in Keys(props) then Keys(props) else Keys(props) + [key]
  {
    if props == [] then [(key, val)]
    else if props[0].0 == key then [(key, val)] + props[1..]
    else
      var rest := SetProp(props[1..], key, val);
      assert Keys([props[0]] + rest) == [props[0].0] + Keys(rest);
      [props[0]] + rest
  }

  /** After `o[key] = val`, the key reads `val` and every other key reads as
      before. */
  lemma {:induction false} SetPropReads(props: Props, key: string, val: Value, k: string)
    ensures Get(SetProp(props, key, val), k) == if k == key then val else Get(props, k)
  {
    if props != [] && props[0].0 != key {
      SetPropReads(props[1..], key, val, k);
      assert ([props[0]] + SetProp(props[1..], key, val))[1..] == SetProp(props[1..], key, val);
    }
  }

  /** Setting a property never repeats a key. */
  lemma SetPropKeepsKeysDistinct(props: Props, key: string, val: Value)
    ensures DistinctKeys(props) ==> DistinctKeys(SetProp(props, key, val))
  {
    var r := SetProp(props, key, val);
    if DistinctKeys(props) {
      forall i, j | 0 <= i < j < |r| ensures r[i].0 != r[j].0 {
        assert r[i].0 == Keys(r)[i] && r[j].0 == Keys(r)[j];
        if j < |props| {
          assert Keys(r)[i] == Keys(props)[i] == props[i].0;
          assert Keys(r)[j] == Keys(props)[j] == props[j].0;
        } else {
          assert key !in Keys(props) && Keys(r)[j] == key;
          assert Keys(r)[i] == Keys(props)[i];
        }
      }
    }
  }

  /** Copying the own properties of `src`, in order, onto `target` — the
      effect of a spread `{...target, ...src}`. The target's keys keep their
      order, and distinct keys stay distinct. */
  function Assign(target: Props, src: Props): (r: Props)
    ensures |r| >= |target| && Keys(r)[..|target|] == Keys(target)
    ensures DistinctKeys(target) ==> DistinctKeys(r)
    decreases |src|
  {
    if src == [] then target
    else
      var next := SetProp(target, src[0].0, src[0].1);
      SetPropKeepsKeysDistinct(target, src[0].0, src[0].1);
      var r := Assign(next, src[1..]);
      assert Keys(r)[..|target|] == Keys(r)[..|next|][..|target|];
      r
  }

  /** After a spread, a key reads the source's value when the source has the
      key, and the target's otherwise. */
  lemma {:induction false} AssignReads(target: Props, src: Props, k: string)
    requires DistinctKeys(src)
    ensures Get(Assign(target, src), k) == if k in Keys(src) then Get(src, k) else Get(target, k)
    decreases |src|
  {
    if src != [] {
      var next := SetProp(target, src[0].0, src[0].1);
      assert Keys(src) == [src[0].0] + Keys(src[1..]);
      forall i | 0 <= i < |src[1..]| ensures Keys(src[1..])[i] != src[0].0 {
        assert Keys(src[1..])[i] == src[i + 1].0;
      }
      AssignReads(next, src[1..], k);
      SetPropReads(target, src[0].0, src[0].1, k);
      if k != src[0].0 && k !in Keys(src[1..]) {
        AbsentIsUndefined(src[1..], k);
      }
    }
  }

  /** `{ type, ...projectInfo, ...project }`: `type` stays the first key and
      the keys stay distinct. */
  function MergeProjectInfo(kind: string, info: Props, project: Props): (r: Props)
    requires DistinctKeys(info)
    ensures |r| >= 1 && r[0].0 == "type"
    ensures DistinctKeys(project) ==> DistinctKeys(r)
  {
    var start := [("type", Str(kind))];
    var r := Assign(Assign(start, info), project);
    assert Keys(r)[..1] == Keys(start);
    r
  }

  /** In the merged description the answers override the name taken from the
      argument, which overrides nothing but `type`. */
  lemma MergeProjectInfoReads(kind: string, info: Props, project: Props, k: string)
    requires DistinctKeys(info) && DistinctKeys(project)
    ensures Get(MergeProjectInfo(kind, info, project), k) ==
      (if k in Keys(project) then Get(project, k)
       else if k in Keys(info) then Get(info, k)
       else if k == "type" then Str(kind)
       else Undefined)
  {
    var start := [("type", Str(kind))];
    AssignReads(Assign(start, info), project, k);
    AssignReads(start, info, k);
    if k != "type" {
      AbsentIsUndefined(start, k);
    }
  }

  /** `s.replace(/^-/, '')`. */
  function DropLeadingDash(s: string): (r: string)
    ensures StartsWith(s, '-') ==> r == s[1..]
    ensures !StartsWith(s, '-') ==> r == s
    ensures !StartsWith(r, '-') || StartsWith(s[1..], '-')
  {
    if StartsWith(s, '-') then s[1..] else s
  }

  /** The class name added to a project description that has a name, using
      the kebab-case conversion given as a parameter. */
  function WithClassName(info: Props, kebab: string -> string): (r: Props)
    ensures !(Get(info, "name").Str? && Truthy(Get(info, "name"))) ==> r == info
    ensures Get(info, "name").Str? && Truthy(Get(info, "name")) ==>
      r == SetProp(info, "className", Str(DropLeadingDash(kebab(Get(info, "name").s))))
    ensures DistinctKeys(info) ==> DistinctKeys(r)
  {
    var name := Get(info, "name");
    if name.Str? && Truthy(name) then
      SetPropKeepsKeysDistinct(info, "className", Str(DropLeadingDash(kebab(name.s))));
      SetProp(info, "className", Str(DropLeadingDash(kebab(name.s))))
    else info
  }

  /** A named description gains the class name; every other key reads as
      before. */
  lemma WithClassNameReads(info: Props, kebab: string -> string, k: string)
    ensures var name := Get(info, "name");
      Get(WithClassName(info, kebab), k) ==
        if k == "className" && name.Str? && Truthy(name) then Str(DropLeadingDash(kebab(name.s)))
        else Get(info, k)
  {
    var name := Get(info, "name");
    if name.Str? && Truthy(name) {
      SetPropReads(info, "className", Str(DropLeadingDash(kebab(name.s))), k);
    }
  }
}
