/**
 * The `apply` command of the client (internal/client/cmd.go): its options set three
 * flags, the decoded object is validated and possibly stripped of its tokens, and the
 * flags select the write mode. Reading stdin, the YAML decoder and the HTTP call are not
 * modelled: the decoder's outcome is an input, and the result says what would be sent.
 */
module ClientCmd {
  import opened Wrappers
  import opened Objects
  import Protocol
  import Client

  datatype Flags = Flags(create: bool, replace: bool, stripRevision: bool)

  /** The flags before any option is read. */
  const Defaults := Flags(true, true, false)

  /** Reading the options: final flags, an incompatible pair, or an unknown option. */
  datatype Parse = Parsed(flags: Flags) | Incompatible | Unknown(option: string)

  /** Options only switch a write mode off and stripping on, never the other way. */
  predicate Narrows(f: Flags, g: Flags) {
    (g.create ==> f.create) && (g.replace ==> f.replace) && (f.stripRevision ==> g.stripRevision)
  }

  /** One option applied to the flags read so far. */
  function ApplyOption(f: Flags, opt: string): (r: Parse)
    ensures r.Unknown? <==> opt !in {"--if-not-exists", "--force-overwrite", "--no-create"}
    ensures r.Unknown? ==> r.option == opt
    ensures r == Incompatible <==>
              (opt == "--if-not-exists" && !f.create) || (opt in {"--force-overwrite", "--no-create"} && !f.replace)
    ensures r.Parsed? ==> Narrows(f, r.flags)
    ensures r.Parsed? && opt in {"--if-not-exists", "--force-overwrite"} ==> r.flags.stripRevision
    ensures r.Parsed? && opt == "--if-not-exists" ==> !r.flags.replace
    ensures r.Parsed? && opt == "--no-create" ==> !r.flags.create
  {
    if opt == "--if-not-exists" then
      if !f.create then Incompatible else Parsed(f.(replace := false, stripRevision := true))
    else if opt == "--force-overwrite" then
      if !f.replace then Incompatible else Parsed(f.(stripRevision := true))
    else if opt == "--no-create" then
      if !f.replace then Incompatible else Parsed(f.(create := false))
    else
      Unknown(opt)
  }

  /** The options read left to right; the first failure stops the reading. */
  function ParseOptions(f: Flags, opts: seq<string>): (r: Parse)
    ensures r.Unknown? ==> r.option in opts
    ensures r.Parsed? ==> Narrows(f, r.flags)
    ensures r.Parsed? && ("--if-not-exists" in opts || "--force-overwrite" in opts) ==> r.flags.stripRevision
    decreases |opts|
  {
    if opts == [] then Parsed(f)
    else match ApplyOption(f, opts[0])
      case Parsed(g) => ParseOptions(g, opts[1..])
      case failure => failure
  }

  /** The flags reading can reach: something is always written, and create-only strips. */
  predicate Coherent(f: Flags) {
    (f.create || f.replace) && (!f.replace ==> f.stripRevision)
  }

  lemma {:induction false} ParseKeepsCoherent(f: Flags, opts: seq<string>)
    requires Coherent(f)
    ensures ParseOptions(f, opts).Parsed? ==> Coherent(ParseOptions(f, opts).flags)
    decreases |opts|
  {
    if opts != [] && ApplyOption(f, opts[0]).Parsed? {
      ParseKeepsCoherent(ApplyOption(f, opts[0]).flags, opts[1..]);
    }
  }

  /**
   * Whatever the options, create and replace are never both false, so the
   * "Nothing to do" branch cannot be taken.
   */
  lemma OptionsNeverDisableBoth(opts: seq<string>)
    ensures ParseOptions(Defaults, opts).Parsed? ==>
              ParseOptions(Defaults, opts).flags.create || ParseOptions(Defaults, opts).flags.replace
  {
    ParseKeepsCoherent(Defaults, opts);
  }

  lemma {:induction false} AfterIfNotExists(f: Flags, opts: seq<string>)
    requires f == Flags(true, false, true)
    ensures ParseOptions(f, opts).Parsed? ==> ParseOptions(f, opts).flags == f
    decreases |opts|
  {
    if opts != [] && ApplyOption(f, opts[0]).Parsed? {
      AfterIfNotExists(ApplyOption(f, opts[0]).flags, opts[1..]);
    }
  }

  lemma {:induction false} AfterNoCreate(f: Flags, opts: seq<string>)
    requires !f.create && f.replace
    ensures ParseOptions(f, opts).Parsed? ==>
              !ParseOptions(f, opts).flags.create && ParseOptions(f, opts).flags.replace
    ensures "--if-not-exists" in opts ==> !ParseOptions(f, opts).Parsed?
    decreases |opts|
  {
    if opts != [] && ApplyOption(f, opts[0]).Parsed? {
      AfterNoCreate(ApplyOption(f, opts[0]).flags, opts[1..]);
    }
  }

  /**
   * `--if-not-exists` (when it is accepted) always ends in create-only with stripping;
   * `--no-create` ends in replace-only and rules out a later or earlier `--if-not-exists`.
   */
  lemma {:induction false} OptionEffects(f: Flags, opts: seq<string>)
    requires f.create && f.replace
    ensures "--if-not-exists" in opts && ParseOptions(f, opts).Parsed? ==>
              ParseOptions(f, opts).flags == Flags(true, false, true)
    ensures "--no-create" in opts && ParseOptions(f, opts).Parsed? ==>
              !ParseOptions(f, opts).flags.create && ParseOptions(f, opts).flags.replace
    ensures "--no-create" in opts && "--if-not-exists" in opts ==> !ParseOptions(f, opts).Parsed?
    decreases |opts|
  {
    if opts != [] {
      match ApplyOption(f, opts[0])
      case Parsed(g) =>
        if opts[0] == "--if-not-exists" {
          AfterIfNotExists(g, opts[1..]);
          assert ParseOptions(g, opts[1..]).Parsed? ==> "--no-create" !in opts[1..] by {
            if "--no-create" in opts[1..] {
              ReplacingRefusedAfterIfNotExists(g, opts[1..]);
            }
          }
        } else if opts[0] == "--no-create" {
          AfterNoCreate(g, opts[1..]);
        } else {
          OptionEffects(g, opts[1..]);
        }
      case _ =>
    }
  }

  /**
   * After `--if-not-exists` replace is off, so a later `--no-create` or
   * `--force-overwrite` is refused.
   */
  lemma {:induction false} ReplacingRefusedAfterIfNotExists(f: Flags, opts: seq<string>)
    requires f == Flags(true, false, true)
    requires "--no-create" in opts || "--force-overwrite" in opts
    ensures !ParseOptions(f, opts).Parsed?
    decreases |opts|
  {
    if ApplyOption(f, opts[0]).Parsed? {
      ReplacingRefusedAfterIfNotExists(ApplyOption(f, opts[0]).flags, opts[1..]);
    }
  }

  /** The mode the flags select. */
  function ModeOf(f: Flags): (m: Client.WriteMode)
    requires f.create || f.replace
    ensures m == Client.CreateOrReplace <==> f.create && f.replace
    ensures m == Client.CreateOnly <==> f.create && !f.replace
    ensures m == Client.ReplaceOnly <==> !f.create && f.replace
  {
    if f.create && f.replace then Client.CreateOrReplace
    else if f.create then Client.CreateOnly
    else Client.ReplaceOnly
  }

  /** The object with its id and revision cleared. */
  function Stripped(o: Object): (s: Object)
    ensures s.metadata.id == "" && s.metadata.revision == ""
    ensures Protocol.SameContent(s, o) && s.metadata.creationTime == o.metadata.creationTime
  {
    o.(metadata := o.metadata.(id := "", revision := ""))
  }

  /** How `apply` ends: an error, a process exit, or the write it hands to the client. */
  datatype ApplyResult = Failed(message: string) | Exited(code: int) | Send(obj: Object, mode: Client.WriteMode)

  /**
   * `apply(args)`. `args[0]` is the command name; `input` is what the YAML decoder made of
   * stdin. Also returns what is printed on stderr.
   */
  method Apply(args: seq<string>, input: Result<Object, string>) returns (r: ApplyResult, stderr: seq<string>)
    requires |args| >= 1
    ensures ParseOptions(Defaults, args[1..]) == Incompatible ==> r == Failed("Incompatible options") && stderr == []
    ensures ParseOptions(Defaults, args[1..]).Unknown? ==>
              r == Exited(2) && stderr == ["Unknown option: " + ParseOptions(Defaults, args[1..]).option]
    ensures ParseOptions(Defaults, args[1..]).Parsed? && input.Failure? ==> r == Failed(input.error) && stderr == []
    ensures ParseOptions(Defaults, args[1..]).Parsed? && input.Success? ==>
              var o := input.value;
              var f := ParseOptions(Defaults, args[1..]).flags;
              && stderr == (if o.kind == "" then ["Missing kind\n"] else []) + (if o.metadata.name == "" then ["Missing name\n"] else [])
              && (o.kind == "" || o.metadata.name == "" ==> r == Failed("object is not valid"))
              && (o.kind != "" && o.metadata.name != "" ==>
                    (OptionsNeverDisableBoth(args[1..]);
                     r == Send(if f.stripRevision then Stripped(o) else o, ModeOf(f))))
    ensures r.Send? ==> r.obj.kind != "" && r.obj.metadata.name != ""
  {
    var create, replace, stripRevision := true, true, false;
    var i := 1;
    while i < |args|
      invariant 1 <= i <= |args|
      invariant ParseOptions(Defaults, args[1..]) == ParseOptions(Flags(create, replace, stripRevision), args[i..])
      invariant Coherent(Flags(create, replace, stripRevision))
    {
      var opt := args[i];
      assert args[i..][1..] == args[i + 1..];
      if opt == "--if-not-exists" {
        if !create {
          return Failed("Incompatible options"), [];
        }
        replace := false;
        stripRevision := true;
      } else if opt == "--force-overwrite" {
        if !replace {
          return Failed("Incompatible options"), [];
        }
        stripRevision := true;
      } else if opt == "--no-create" {
        if !replace {
          return Failed("Incompatible options"), [];
        }
        create := false;
      } else {
        return Exited(2), ["Unknown option: " + opt];
      }
      i := i + 1;
    }

    if input.Failure? {
      return Failed(input.error), [];
    }
    var o := input.value;

    var valid := true;
    stderr := [];
    if o.kind == "" {
      stderr := stderr + ["Missing kind\n"];
      valid := false;
    }
    if o.metadata.name == "" {
      stderr := stderr + ["Missing name\n"];
      valid := false;
    }
    if !valid {
      return Failed("object is not valid"), stderr;
    }

    if stripRevision {
      o := o.(metadata := o.metadata.(id := ""));
      o := o.(metadata := o.metadata.(revision := ""));
    }

    var mode;
    if create && replace {
      mode := Client.CreateOrReplace;
    } else if create {
      mode := Client.CreateOnly;
    } else if replace {
      mode := Client.ReplaceOnly;
    } else {
      assert false;
      return Failed("Nothing to do"), stderr;
    }

    return Send(o, mode), stderr;
  }
}
