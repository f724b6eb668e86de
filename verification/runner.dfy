/** `petmail/scripts/runner.py`: the `petmail` command line. Options are
    parsed into per-command option records with a few defaulting rules, a
    dispatch table maps each sub-command to a handler, `run` turns the
    handler's outcome into an exit code, and the web commands render the
    node's JSON replies as text.

    Twisted's option parser is not modelled: it is taken to have split the
    command line into the global `--basedir`, the sub-command name, that
    sub-command's options (every declared option present, with its
    default) and its positional arguments. The modules the dispatch table
    imports lazily (node creation, start/stop, the web API client) are
    external functions passed in as parameters. */
module Runner {
  import opened Common
  import opened Text
  import opened Sorting

  /** An option value: a parameter's string, a flag, or Python's None. */
  datatype Val = Str(s: string) | Flag(b: bool) | NoValue

  type Opts = map<string, Val>

  /** `if not self[...]`: None, False and the empty string are false. */
  predicate Truthy(v: Val)
  {
    match v
    case Str(s) => s != ""
    case Flag(b) => b
    case NoValue => false
  }

  function Get(opts: Opts, name: string): Val
  {
    if name in opts then opts[name] else NoValue
  }

  // ---------------------------------------------------------------------
  // option defaulting

  /** A sub-command's parsed options: the option map, plus the attributes
      some `parseArgs` set (`twistd_args`, `test_args`). */
  datatype SubOptions = SubOptions(opts: Opts, twistdArgs: seq<string>, testArgs: seq<string>)

  /** `BasedirParameterMixin.postOptions`: a missing basedir is taken from
      the parent options; a given one is kept. */
  function InheritBasedir(opts: Opts, parentBasedir: string): (r: Opts)
    ensures Truthy(Get(opts, "basedir")) ==> r == opts
    ensures !Truthy(Get(opts, "basedir")) ==> r == opts["basedir" := Str(parentBasedir)]
  {
    if Truthy(Get(opts, "basedir")) then opts else opts["basedir" := Str(parentBasedir)]
  }

  /** The sub-commands `Options` declares, and the two further keys of the
      dispatch table (`create-relay`, `accept`) no option parser leads to. */
  datatype Command =
    | CreateNode | Start | Stop | Restart | Open
    | Sample | Invite | Addressbook | AddMailbox | EnableLocalMailbox
    | SendBasic | FetchMessages | Test
    | CreateRelay | Accept

  function CommandName(c: Command): string
  {
    match c
    case CreateNode => "create-node"
    case Start => "start"
    case Stop => "stop"
    case Restart => "restart"
    case Open => "open"
    case Sample => "sample"
    case Invite => "invite"
    case Addressbook => "addressbook"
    case AddMailbox => "add-mailbox"
    case EnableLocalMailbox => "enable-local-mailbox"
    case SendBasic => "send-basic"
    case FetchMessages => "fetch-messages"
    case Test => "test"
    case CreateRelay => "create-relay"
    case Accept => "accept"
  }

  /** The commands `Options.subCommands` declares. */
  predicate Declared(c: Command)
  {
    !c.CreateRelay? && !c.Accept?
  }

  /** The declared sub-command with the given name, if any. */
  function FindCommand(name: string): (r: Option<Command>)
    ensures r.Some? ==> Declared(r.value) && CommandName(r.value) == name
    ensures r.None? ==> forall c :: Declared(c) ==> CommandName(c) != name
  {
    if name == "create-node" then Some(CreateNode)
    else if name == "start" then Some(Start)
    else if name == "stop" then Some(Stop)
    else if name == "restart" then Some(Restart)
    else if name == "open" then Some(Open)
    else if name == "sample" then Some(Sample)
    else if name == "invite" then Some(Invite)
    else if name == "addressbook" then Some(Addressbook)
    else if name == "add-mailbox" then Some(AddMailbox)
    else if name == "enable-local-mailbox" then Some(EnableLocalMailbox)
    else if name == "send-basic" then Some(SendBasic)
    else if name == "fetch-messages" then Some(FetchMessages)
    else if name == "test" then Some(Test)
    else None
  }

  /** Options classes mixing in `BasedirArgument` (an optional positional
      basedir) or `StartArguments` (a basedir, then twistd arguments). */
  predicate HasBasedirArgument(c: Command)
  {
    c.CreateNode? || c.Stop? || c.Open?
  }

  predicate HasStartArguments(c: Command)
  {
    c.Start? || c.Restart?
  }

  /** Twisted turns a positional-argument count that `parseArgs` does not
      accept into this usage error. */
  const WrongArity := "Wrong number of arguments."

  /** Each sub-command's `parseArgs`, with Twisted's arity check:
      an optional basedir (`BasedirArgument`); an optional basedir and any
      twistd arguments (`StartArguments`); an optional data argument
      defaulting to "no data" (`sample`); any arguments, ["petmail"] when
      none are given (`test`); otherwise exactly the named arguments
      (`invite`: code; `add-mailbox`: descriptor; `send-basic`: cid and
      message; none for the rest). */
  function ParseArgs(c: Command, opts: Opts, args: seq<string>): (r: Result<SubOptions, string>)
    ensures HasStartArguments(c) ==>
      && r.Ok?
      && r.value.twistdArgs == (if |args| == 0 then [] else args[1..])
      && Get(r.value.opts, "basedir") == (if |args| == 0 then Get(opts, "basedir") else Str(args[0]))
    ensures HasBasedirArgument(c) ==>
      && (r.Ok? <==> |args| <= 1)
      && (r.Ok? ==> Get(r.value.opts, "basedir") == (if |args| == 0 then Get(opts, "basedir") else Str(args[0])))
    ensures c.Sample? ==>
      && (r.Ok? <==> |args| <= 1)
      && (r.Ok? ==> Get(r.value.opts, "data") == Str(if |args| == 0 then "no data" else args[0]))
    ensures c.Test? ==>
      r == Ok(SubOptions(opts, [], if |args| == 0 then ["petmail"] else args))
    ensures c.Invite? ==> (r.Ok? <==> |args| == 1) && (r.Ok? ==> Get(r.value.opts, "code") == Str(args[0]))
    ensures c.AddMailbox? ==> (r.Ok? <==> |args| == 1) && (r.Ok? ==> Get(r.value.opts, "descriptor") == Str(args[0]))
    ensures c.SendBasic? ==>
      && (r.Ok? <==> |args| == 2)
      && (r.Ok? ==> Get(r.value.opts, "cid") == Str(args[0]) && Get(r.value.opts, "message") == Str(args[1]))
    ensures c.Addressbook? || c.EnableLocalMailbox? || c.FetchMessages? || c.CreateRelay? || c.Accept? ==>
      r == (if |args| == 0 then Ok(SubOptions(opts, [], [])) else Err(WrongArity))
    ensures !HasStartArguments(c) && !HasBasedirArgument(c) && r.Ok? ==>
      Get(r.value.opts, "basedir") == Get(opts, "basedir")
    ensures r.Err? ==> r.error == WrongArity
  {
    if HasStartArguments(c) then
      if |args| == 0 then Ok(SubOptions(opts, [], []))
      else Ok(SubOptions(opts["basedir" := Str(args[0])], args[1..], []))
    else if HasBasedirArgument(c) then
      if |args| > 1 then Err(WrongArity)
      else if |args| == 0 then Ok(SubOptions(opts, [], []))
      else Ok(SubOptions(opts["basedir" := Str(args[0])], [], []))
    else if c.Sample? then
      if |args| > 1 then Err(WrongArity)
      else Ok(SubOptions(opts["data" := Str(if |args| == 0 then "no data" else args[0])], [], []))
    else if c.Test? then
      Ok(SubOptions(opts, [], if |args| == 0 then ["petmail"] else args))
    else if c.Invite? then
      if |args| != 1 then Err(WrongArity) else Ok(SubOptions(opts["code" := Str(args[0])], [], []))
    else if c.AddMailbox? then
      if |args| != 1 then Err(WrongArity) else Ok(SubOptions(opts["descriptor" := Str(args[0])], [], []))
    else if c.SendBasic? then
      if |args| != 2 then Err(WrongArity)
      else Ok(SubOptions(opts["cid" := Str(args[0])]["message" := Str(args[1])], [], []))
    else if |args| != 0 then Err(WrongArity)
    else Ok(SubOptions(opts, [], []))
  }

  /** Each sub-command's `postOptions`: `test` has none; `restart`
      inherits the basedir and then forces "no-open" off; the rest inherit
      the basedir. */
  function PostOptions(c: Command, so: SubOptions, parentBasedir: string): (r: SubOptions)
    ensures r.twistdArgs == so.twistdArgs && r.testArgs == so.testArgs
    ensures c.Test? ==> r == so
    ensures !c.Test? ==>
      (Truthy(Get(r.opts, "basedir")) || (parentBasedir == "" && Get(r.opts, "basedir") == Str("")))
    ensures c.Restart? ==> Get(r.opts, "no-open") == Flag(false)
    ensures !c.Test? && Truthy(Get(so.opts, "basedir")) ==> Get(r.opts, "basedir") == Get(so.opts, "basedir")
  {
    if c.Test? then so
    else
      var opts := InheritBasedir(so.opts, parentBasedir);
      if c.Restart? then so.(opts := opts["no-open" := Flag(false)])
      else so.(opts := opts)
  }

  /** What Twisted's parser hands over: the global basedir (when given)
      and the sub-command name with its options and positional
      arguments. */
  datatype Invocation = Invocation(basedir: Option<string>, sub: Option<(string, Opts, seq<string>)>)

  datatype Config = Config(basedir: string, command: Command, so: SubOptions)

  /** A usage error, with the sub-command whose options were being parsed
      when it was raised (`None` for the top-level options). */
  datatype UsageError = UsageError(within: Option<Command>, message: string)

  /** `Options().parseOptions(args)`: the global basedir defaults to
      `~/.petmail`, where `home` is what `os.path.expanduser("~")` gives,
      the home directory without a trailing "/"; no sub-command is the usage error "must specify a
      command"; an undeclared one is Twisted's "Unknown command". */
  function ParseOptions(inv: Invocation, home: string): (r: Result<Config, UsageError>)
    ensures inv.sub.None? ==> r == Err(UsageError(None, "must specify a command"))
    ensures r.Ok? ==>
      && inv.sub.Some?
      && CommandName(r.value.command) == inv.sub.value.0
      && Declared(r.value.command)
      && r.value.basedir == (if inv.basedir.Some? then inv.basedir.value else home + "/.petmail")
    ensures inv.sub.Some? && (forall c :: Declared(c) ==> CommandName(c) != inv.sub.value.0) ==>
      r == Err(UsageError(None, "Unknown command: " + inv.sub.value.0))
    ensures r.Err? && r.error.within.Some? ==> r.error.message == WrongArity
  {
    var basedir := if inv.basedir.Some? then inv.basedir.value else home + "/.petmail";
    match inv.sub
    case None => Err(UsageError(None, "must specify a command"))
    case Some((name, opts, args)) =>
      match FindCommand(name)
      case None => Err(UsageError(None, "Unknown command: " + name))
      case Some(c) =>
        match ParseArgs(c, opts, args)
        case Err(msg) => Err(UsageError(Some(c), msg))
        case Ok(so) => Ok(Config(basedir, c, PostOptions(c, so, basedir)))
  }

  // ---------------------------------------------------------------------
  // rendering

  datatype Entry = Entry(petname: string, cid: int, acked: bool, theirVerfkey: string, myVerfkey: string)

  datatype Message = Message(id: int, petname: string, cid: int, seqnum: int, payload: string)

  /** A value in the reply's JSON: a string, or any other value (a number,
      a list, an object), to which `+ "\n"` cannot be applied. */
  datatype Json = JString(s: string) | JOther

  /** The keys of a JSON reply the renderers read; a missing key is a
      KeyError. */
  datatype Reply = Reply(ok: Option<Json>, err: Option<string>, addressbook: Option<seq<Entry>>, messages: Option<seq<Message>>)

  datatype Renderer = RenderText | RenderAddressbook | RenderMessages

  /** Lines joined with "\n", plus a final "\n". */
  function JoinLines(lines: seq<string>): string
  {
    Join(lines, '\n') + "\n"
  }

  function Flatten(groups: seq<seq<string>>): seq<string>
  {
    if |groups| == 0 then [] else groups[0] + Flatten(groups[1..])
  }

  function EntryLines(e: Entry): seq<string>
  {
    ["\"" + e.petname + "\" (" + IntToString(e.cid) + "):",
     " " + (if e.acked then "acknowledged" else "not acknowledged"),
     " their verfkey: " + e.theirVerfkey,
     " (our verfkey): " + e.myVerfkey]
  }

  function MessageLines(m: Message): seq<string>
  {
    ["== " + IntToString(m.id) + ": from " + m.petname + " (cid=" + IntToString(m.cid)
       + " #" + IntToString(m.seqnum) + "):",
     m.payload]
  }

  function Petname(e: Entry): string
  {
    e.petname
  }

  function Id(m: Message): int
  {
    m.id
  }

  /** `sorted(result["addressbook"], key=lambda e: e["petname"])` */
  function ByPetname(entries: seq<Entry>): (r: seq<Entry>)
    ensures |r| == |entries|
  {
    assert |multiset(SortBy(entries, Petname, LexLe))| == |multiset(entries)|;
    SortBy(entries, Petname, LexLe)
  }

  /** `sorted(result["messages"], key=lambda e: e["id"])` */
  function ById(messages: seq<Message>): (r: seq<Message>)
    ensures |r| == |messages|
  {
    assert |multiset(SortBy(messages, Id, IntLe))| == |multiset(messages)|;
    SortBy(messages, Id, IntLe)
  }

  /** One block of lines per element. */
  function Blocks<T>(xs: seq<T>, f: T -> seq<string>): (r: seq<seq<string>>)
    ensures |r| == |xs|
    ensures forall i :: 0 <= i < |xs| ==> r[i] == f(xs[i])
  {
    seq(|xs|, i requires 0 <= i < |xs| => f(xs[i]))
  }

  function AddressbookLines(entries: seq<Entry>): (r: seq<string>)
    ensures |r| == 4 * |entries|
  {
    FlattenWidth(Blocks(ByPetname(entries), EntryLines), 4);
    Flatten(Blocks(ByPetname(entries), EntryLines))
  }

  function MessagesLines(messages: seq<Message>): (r: seq<string>)
    ensures |r| == 2 * |messages|
  {
    FlattenWidth(Blocks(ById(messages), MessageLines), 2);
    Flatten(Blocks(ById(messages), MessageLines))
  }

  lemma {:induction false} FlattenWidth(groups: seq<seq<string>>, w: nat)
    requires forall i :: 0 <= i < |groups| ==> |groups[i]| == w
    ensures |Flatten(groups)| == w * |groups|
  {
    if |groups| > 0 {
      FlattenWidth(groups[1..], w);
    }
  }

  /** With blocks of equal width `w`, block `i` sits at lines `w*i` to
      `w*i + w`. */
  lemma {:induction false} FlattenBlock(groups: seq<seq<string>>, w: nat, i: nat)
    requires forall j :: 0 <= j < |groups| ==> |groups[j]| == w
    requires i < |groups|
    ensures w * i + w <= |Flatten(groups)|
    ensures Flatten(groups)[w * i .. w * i + w] == groups[i]
  {
    FlattenWidth(groups, w);
    FlattenWidth(groups[1..], w);
    if i > 0 {
      FlattenBlock(groups[1..], w, i - 1);
      assert w * i == w + w * (i - 1);
    }
  }

  lemma {:induction false} FlattenOneLine(groups: seq<seq<string>>)
    requires forall i, j :: 0 <= i < |groups| && 0 <= j < |groups[i]| ==> '\n' !in groups[i][j]
    ensures forall k :: 0 <= k < |Flatten(groups)| ==> '\n' !in Flatten(groups)[k]
  {
    if |groups| > 0 {
      FlattenOneLine(groups[1..]);
      forall k | 0 <= k < |Flatten(groups)|
        ensures '\n' !in Flatten(groups)[k]
      {
        if k >= |groups[0]| {
          assert Flatten(groups)[k] == Flatten(groups[1..])[k - |groups[0]|];
        }
      }
    }
  }

  /** `render_text`, `render_addressbook`, `render_messages`. */
  function Render(renderer: Renderer, reply: Reply): (r: Result<string, Failure>)
    ensures r.Err? <==>
      match renderer
      case RenderText => reply.ok.None? || reply.ok.value.JOther?
      case RenderAddressbook => reply.addressbook.None?
      case RenderMessages => reply.messages.None?
    // a missing key is a KeyError; only `result["ok"] + "\n"` can be a TypeError
    ensures r.Err? ==> r.error.KeyError? || (renderer == RenderText && r.error.TypeError?)
    ensures r.Err? && renderer == RenderText ==> (r.error.TypeError? <==> reply.ok.Some?)
    // render_text shows the "ok" string followed by one newline
    ensures r.Ok? && renderer == RenderText ==> r.value == reply.ok.value.s + "\n"
    ensures r.Ok? ==> |r.value| > 0 && r.value[|r.value| - 1] == '\n'
  {
    match renderer
    case RenderText =>
      (match reply.ok
       case None => Err(KeyError("ok"))
       case Some(JOther) => Err(TypeError("unsupported operand type(s) for +"))
       case Some(JString(t)) => Ok(t + "\n"))
    case RenderAddressbook =>
      if reply.addressbook.None? then Err(KeyError("addressbook"))
      else Ok(JoinLines(AddressbookLines(reply.addressbook.value)))
    case RenderMessages =>
      if reply.messages.None? then Err(KeyError("messages"))
      else Ok(JoinLines(MessagesLines(reply.messages.value)))
  }

  lemma NoNewlineInNumber(i: int)
    ensures '\n' !in IntToString(i)
  {
    var s := IntToString(i);
    forall k | 0 <= k < |s|
      ensures s[k] != '\n'
    {
      if i >= 0 {
        assert IsDigit(Decimal(i)[k]);
      } else if k > 0 {
        assert s[k] == Decimal(-i)[k - 1];
      }
    }
  }

  /** Splitting rendered text at newlines gives back its lines and one
      empty string after the final newline. */
  lemma {:induction false} TextLines(lines: seq<string>)
    requires forall i :: 0 <= i < |lines| ==> '\n' !in lines[i]
    ensures Split(JoinLines(lines), '\n') == (if |lines| == 0 then [""] else lines) + [""]
  {
    var ls := if |lines| == 0 then [""] else lines;
    JoinAppendEmpty(ls);
    assert Join(ls, '\n') == Join(lines, '\n');
    SplitJoin(ls + [""], '\n');
  }

  lemma {:induction false} JoinAppendEmpty(xs: seq<string>)
    requires |xs| >= 1
    ensures Join(xs + [""], '\n') == Join(xs, '\n') + "\n"
  {
    if |xs| == 1 {
      assert (xs + [""])[1..] == [""];
    } else {
      assert (xs + [""])[1..] == xs[1..] + [""];
      JoinAppendEmpty(xs[1..]);
    }
  }

  predicate EntryOneLine(e: Entry)
  {
    '\n' !in e.petname && '\n' !in e.theirVerfkey && '\n' !in e.myVerfkey
  }

  predicate MessageOneLine(m: Message)
  {
    '\n' !in m.petname && '\n' !in m.payload
  }

  lemma NotInConcat(c: char, a: string, b: string)
    requires c !in a && c !in b
    ensures c !in a + b
  {
    forall k | 0 <= k < |a + b|
      ensures (a + b)[k] != c
    {
      if k < |a| {
        assert (a + b)[k] == a[k];
      } else {
        assert (a + b)[k] == b[k - |a|];
      }
    }
  }

  lemma EntryLinesOneLine(e: Entry)
    requires EntryOneLine(e)
    ensures forall j :: 0 <= j < |EntryLines(e)| ==> '\n' !in EntryLines(e)[j]
  {
    NoNewlineInNumber(e.cid);
    NotInConcat('\n', "\"", e.petname);
    NotInConcat('\n', "\"" + e.petname, "\" (");
    NotInConcat('\n', "\"" + e.petname + "\" (", IntToString(e.cid));
    NotInConcat('\n', "\"" + e.petname + "\" (" + IntToString(e.cid), "):");
    NotInConcat('\n', " ", if e.acked then "acknowledged" else "not acknowledged");
    NotInConcat('\n', " their verfkey: ", e.theirVerfkey);
    NotInConcat('\n', " (our verfkey): ", e.myVerfkey);
  }

  lemma MessageLinesOneLine(m: Message)
    requires MessageOneLine(m)
    ensures forall j :: 0 <= j < |MessageLines(m)| ==> '\n' !in MessageLines(m)[j]
  {
    NoNewlineInNumber(m.id);
    NoNewlineInNumber(m.cid);
    NoNewlineInNumber(m.seqnum);
    var s1 := "== " + IntToString(m.id);
    NotInConcat('\n', "== ", IntToString(m.id));
    NotInConcat('\n', s1, ": from ");
    NotInConcat('\n', s1 + ": from ", m.petname);
    var s2 := s1 + ": from " + m.petname + " (cid=";
    NotInConcat('\n', s1 + ": from " + m.petname, " (cid=");
    NotInConcat('\n', s2, IntToString(m.cid));
    NotInConcat('\n', s2 + IntToString(m.cid), " #");
    var s3 := s2 + IntToString(m.cid) + " #";
    NotInConcat('\n', s3, IntToString(m.seqnum));
    NotInConcat('\n', s3 + IntToString(m.seqnum), "):");
  }

  /** `render_addressbook` lays out four lines per entry, entry `i` of the
      petname order at lines `4*i` to `4*i + 4`. */
  lemma AddressbookLayout(entries: seq<Entry>, i: nat)
    requires i < |entries|
    ensures 4 * i + 4 <= |AddressbookLines(entries)|
    ensures AddressbookLines(entries)[4 * i .. 4 * i + 4] == EntryLines(ByPetname(entries)[i])
  {
    var groups := Blocks(ByPetname(entries), EntryLines);
    FlattenBlock(groups, 4, i);
  }

  /** The petname order is sorted, holds the same entries, and keeps
      entries with the same petname in their original order. */
  lemma AddressbookOrder(entries: seq<Entry>)
    ensures SortedBy(ByPetname(entries), Petname, LexLe)
    ensures multiset(ByPetname(entries)) == multiset(entries)
    ensures forall name :: WithKey(ByPetname(entries), Petname, name) == WithKey(entries, Petname, name)
  {
    LexLeTotalPreorder();
    SortBySorted(entries, Petname, LexLe);
    forall name
      ensures WithKey(ByPetname(entries), Petname, name) == WithKey(entries, Petname, name)
    {
      SortByStable(entries, Petname, LexLe, name);
    }
  }

  /** The rendered addressbook ends in a newline and, when no field holds
      a newline, splits back into its lines. */
  lemma AddressbookText(entries: seq<Entry>, reply: Reply)
    requires reply.addressbook == Some(entries)
    requires forall i :: 0 <= i < |entries| ==> EntryOneLine(entries[i])
    ensures Render(RenderAddressbook, reply).Ok?
    ensures Split(Render(RenderAddressbook, reply).value, '\n')
         == (if |entries| == 0 then [""] else AddressbookLines(entries)) + [""]
  {
    var sorted := ByPetname(entries);
    var groups := Blocks(sorted, EntryLines);
    forall i, j | 0 <= i < |groups| && 0 <= j < |groups[i]|
      ensures '\n' !in groups[i][j]
    {
      assert sorted[i] in multiset(entries);
      var k :| 0 <= k < |entries| && entries[k] == sorted[i];
      EntryLinesOneLine(sorted[i]);
    }
    FlattenOneLine(groups);
    TextLines(Flatten(groups));
  }

  /** `render_messages` lays out two lines per message, message `i` of the
      id order at lines `2*i` to `2*i + 2`. */
  lemma MessagesLayout(messages: seq<Message>, i: nat)
    requires i < |messages|
    ensures 2 * i + 2 <= |MessagesLines(messages)|
    ensures MessagesLines(messages)[2 * i .. 2 * i + 2] == MessageLines(ById(messages)[i])
  {
    var groups := Blocks(ById(messages), MessageLines);
    FlattenBlock(groups, 2, i);
  }

  /** The id order is sorted, holds the same messages, and keeps messages
      with the same id in their original order. */
  lemma MessagesOrder(messages: seq<Message>)
    ensures SortedBy(ById(messages), Id, IntLe)
    ensures multiset(ById(messages)) == multiset(messages)
    ensures forall id :: WithKey(ById(messages), Id, id) == WithKey(messages, Id, id)
  {
    IntLeTotalPreorder();
    SortBySorted(messages, Id, IntLe);
    forall id
      ensures WithKey(ById(messages), Id, id) == WithKey(messages, Id, id)
    {
      SortByStable(messages, Id, IntLe, id);
    }
  }

  /** The rendered messages end in a newline and, when no petname or
      payload holds a newline, split back into their lines. */
  lemma MessagesText(messages: seq<Message>, reply: Reply)
    requires reply.messages == Some(messages)
    requires forall i :: 0 <= i < |messages| ==> MessageOneLine(messages[i])
    ensures Render(RenderMessages, reply).Ok?
    ensures Split(Render(RenderMessages, reply).value, '\n')
         == (if |messages| == 0 then [""] else MessagesLines(messages)) + [""]
  {
    var sorted := ById(messages);
    var groups := Blocks(sorted, MessageLines);
    forall i, j | 0 <= i < |groups| && 0 <= j < |groups[i]|
      ensures '\n' !in groups[i][j]
    {
      assert sorted[i] in multiset(messages);
      var k :| 0 <= k < |messages| && messages[k] == sorted[i];
      MessageLinesOneLine(sorted[i]);
    }
    FlattenOneLine(groups);
    TextLines(Flatten(groups));
  }

  // ---------------------------------------------------------------------
  // dispatch

  /** A dispatch target: a lazy-import shim that forwards to
      `module.function`, a web command, or the test runner. */
  datatype Target =
    | Shim(pyModule: string, pyFunction: string)
    | Web(name: string, argnames: seq<string>, renderer: Renderer)
    | Trial

  /** `DISPATCH` */
  function Dispatch(c: Command): Target
  {
    match c
    case CreateNode => Shim("create_node", "create_node")
    case Start => Shim("startstop", "start")
    case Stop => Shim("startstop", "stop")
    case Restart => Shim("startstop", "restart")
    case Open => Shim("open", "open_control_panel")
    case CreateRelay => Shim("create_node", "create_relay")
    case Test => Trial
    case Sample => Web("sample", ["data", "success-object", "error", "server-error"], RenderText)
    case Invite => Web("invite", ["petname", "code"], RenderText)
    case Addressbook => Web("list-addressbook", [], RenderAddressbook)
    case AddMailbox => Web("add-mailbox", ["descriptor"], RenderText)
    case EnableLocalMailbox => Web("enable-local-mailbox", [], RenderText)
    case SendBasic => Web("send-basic", ["cid", "message"], RenderText)
    case FetchMessages => Web("fetch-messages", [], RenderMessages)
    case Accept => Shim("accept_invitation", "accept_invitation")
  }

  /** The exceptions a handler can raise. */
  datatype Exception = NoNode(basedir: string) | ImportFailure(message: string) | Other(failure: Failure)

  /** What a handler did: its return code or exception, and what it wrote
      to stdout and stderr. */
  datatype Handled = Returned(rc: int, out: string, err: string) | Threw(exc: Exception, out: string, err: string)

  /** The foreign calls handlers make: a lazily imported function by its
      qualified name; the import of `webwait.command` (None when it
      succeeds, else the ImportError's message); and
      `webwait.command(basedir, name, args, err)`, which gives `(ok, result)`
      or raises (NoNodeError among others). */
  datatype World = World(
    call: (string, SubOptions) -> Handled,
    webwaitImport: Option<string>,
    web: (Val, string, map<string, Val>) -> Result<(bool, Reply), Exception>)

  /** The arguments a web command sends: each named option; KeyError when
      one is not an option of the command. */
  function WebArgs(opts: Opts, argnames: seq<string>): (r: Result<map<string, Val>, Failure>)
    ensures r.Ok? <==> forall i :: 0 <= i < |argnames| ==> argnames[i] in opts
    ensures r.Ok? ==> r.value.Keys == Elements(argnames)
    ensures r.Ok? ==> forall k :: k in r.value ==> r.value[k] == opts[k]
    ensures r.Err? ==> r.error.KeyError?
  {
    if |argnames| == 0 then Ok(map[])
    else if argnames[0] !in opts then Err(KeyError(argnames[0]))
    else match WebArgs(opts, argnames[1..])
      case Err(e) => Err(e)
      case Ok(m) =>
        assert Elements(argnames) == {argnames[0]} + Elements(argnames[1..]) by {
          assert argnames == [argnames[0]] + argnames[1..];
        }
        Ok(m[argnames[0] := opts[argnames[0]]])
  }

  /** `webwait.command` itself raised `exc` when called for this web
      command. */
  predicate WebRaised(world: World, name: string, argnames: seq<string>, so: SubOptions, exc: Exception)
  {
    && world.webwaitImport.None?
    && WebArgs(so.opts, argnames).Ok?
    && world.web(Get(so.opts, "basedir"), name, WebArgs(so.opts, argnames).value) == Err(exc)
  }

  /** The `_command` a `WebCommand(name, argnames, render)` builds: imports
      `webwait.command`, collects the arguments, calls it, and on an ok
      reply writes the rendering to stdout and returns 0; otherwise it
      writes the reply's "err" to stderr and returns 1. */
  function WebCommand(world: World, name: string, argnames: seq<string>, renderer: Renderer, so: SubOptions): (r: Handled)
    // the lazy import comes first, and its ImportError escapes
    ensures world.webwaitImport.Some? ==> r == Threw(ImportFailure(world.webwaitImport.value), "", "")
    ensures r.Returned? ==> r.rc == 0 || r.rc == 1
    ensures r.Returned? && r.rc == 0 ==>
      && world.webwaitImport.None?
      && WebArgs(so.opts, argnames).Ok?
      && var w := world.web(Get(so.opts, "basedir"), name, WebArgs(so.opts, argnames).value);
      && w.Ok? && w.value.0
      && Render(renderer, w.value.1).Ok? && r.out == Render(renderer, w.value.1).value && r.err == ""
    ensures r.Returned? && r.rc == 1 ==>
      && world.webwaitImport.None?
      && WebArgs(so.opts, argnames).Ok?
      && var w := world.web(Get(so.opts, "basedir"), name, WebArgs(so.opts, argnames).value);
      && w.Ok? && !w.value.0
      && w.value.1.err.Some? && r.err == w.value.1.err.value && r.out == ""
    // what escapes: the ImportError, what webwait.command raised, a
    // KeyError (an argument, "err" or the renderer's key) or render_text's
    // TypeError
    ensures r.Threw? ==>
      || (world.webwaitImport.Some? && r.exc.ImportFailure?)
      || WebRaised(world, name, argnames, so, r.exc)
      || (world.webwaitImport.None? && r.exc.Other? && (r.exc.failure.KeyError? || r.exc.failure.TypeError?))
    ensures world.webwaitImport.None? && WebArgs(so.opts, argnames).Ok? ==>
      var w := world.web(Get(so.opts, "basedir"), name, WebArgs(so.opts, argnames).value);
      w.Err? ==> r == Threw(w.error, "", "")
  {
    if world.webwaitImport.Some? then Threw(ImportFailure(world.webwaitImport.value), "", "")
    else match WebArgs(so.opts, argnames)
      case Err(e) => Threw(Other(e), "", "")
      case Ok(args) =>
        match world.web(Get(so.opts, "basedir"), name, args)
        case Err(exc) => Threw(exc, "", "")
        case Ok((ok, reply)) =>
          if ok then
            match Render(renderer, reply)
            case Err(e) => Threw(Other(e), "", "")
            case Ok(text) => Returned(0, text, "")
          else if reply.err.None? then Threw(Other(KeyError("err")), "", "")
          else Returned(1, "", reply.err.value)
  }

  /** Calls the handler `DISPATCH[command]` with the sub-options. A web
      command returns 0 or 1 or ends with one of four kinds of exception;
      every other command ends as its lazily imported function does. */
  function Handle(world: World, c: Command, so: SubOptions): (r: Handled)
    ensures Dispatch(c).Web? && r.Returned? ==> r.rc == 0 || r.rc == 1
    ensures Dispatch(c).Web? && r.Threw? ==>
      || r.exc.ImportFailure?
      || WebRaised(world, Dispatch(c).name, Dispatch(c).argnames, so, r.exc)
      || (r.exc.Other? && (r.exc.failure.KeyError? || r.exc.failure.TypeError?))
    // a web command prints only after webwait.command answered
    ensures Dispatch(c).Web? && (r.out != "" || r.err != "") ==>
      world.webwaitImport.None? && WebArgs(so.opts, Dispatch(c).argnames).Ok?
  {
    match Dispatch(c)
    case Shim(m, f) => world.call(m + "." + f, so)
    case Web(name, argnames, renderer) => WebCommand(world, name, argnames, renderer, so)
    case Trial => world.call("twisted.scripts.trial", so)
  }

  /** A command that is not a web command never touches `webwait`: its
      outcome depends only on the lazily imported functions. */
  lemma NonWebIgnoresWebwait(world: World, other: World, c: Command, so: SubOptions)
    requires !Dispatch(c).Web? && world.call == other.call
    ensures Handle(world, c, so) == Handle(other, c, so)
  {
  }

  /** How `run` ends: an exit code, or an exception that propagates. */
  datatype RunOutcome = Exit(code: int, out: string, err: string) | Propagate(exc: Exception, out: string, err: string)

  /** `str(NoNodeError(basedir))` */
  function NoNodeText(basedir: string): string
  {
    "NoNodeError: '" + basedir + "' doesn't look like a Petmail basedir, quitting"
  }

  const ImportAdvice := "Please run 'python setup.py build'"

  /** `run(args, stdout, stderr)`. A usage error prints the usage of the
      options being parsed and the message, and exits 1. Otherwise the
      handler's return code is the exit code; NoNodeError is printed and
      exits 1; ImportError is printed with advice and re-raised; other
      exceptions propagate. `usage` is Twisted's `str(options)`. */
  function Run(world: World, inv: Invocation, home: string, usage: Option<Command> -> string): (r: RunOutcome)
    ensures ParseOptions(inv, home).Err? ==>
      var e := ParseOptions(inv, home).error;
      r == Exit(1, "", usage(e.within) + "\n" + e.message + "\n")
    ensures ParseOptions(inv, home).Ok? ==>
      var cfg := ParseOptions(inv, home).value;
      var h := Handle(world, cfg.command, cfg.so);
      && (h.Returned? ==> r == Exit(h.rc, h.out, h.err))
      && (h.Threw? && h.exc.NoNode? ==> r == Exit(1, h.out, h.err + NoNodeText(h.exc.basedir) + "\n"))
      && (h.Threw? && h.exc.ImportFailure? ==>
            r == Propagate(h.exc, h.out, h.err + "--- ImportError ---\n" + h.exc.message + "\n" + ImportAdvice + "\n"))
      && (h.Threw? && h.exc.Other? ==> r == Propagate(h.exc, h.out, h.err))
  {
    match ParseOptions(inv, home)
    case Err(e) => Exit(1, "", usage(e.within) + "\n" + e.message + "\n")
    case Ok(cfg) =>
      match Handle(world, cfg.command, cfg.so)
      case Returned(rc, out, err) => Exit(rc, out, err)
      case Threw(NoNode(b), out, err) => Exit(1, out, err + NoNodeText(b) + "\n")
      case Threw(ImportFailure(m), out, err) =>
        Propagate(ImportFailure(m), out, err + "--- ImportError ---\n" + m + "\n" + ImportAdvice + "\n")
      case Threw(exc, out, err) => Propagate(exc, out, err)
  }

  // ---------------------------------------------------------------------
  // properties of run

  /** Without a sub-command, `run` prints the top-level usage and "must
      specify a command" to stderr and exits 1. */
  lemma RunWithoutCommand(world: World, basedir: Option<string>, home: string, usage: Option<Command> -> string)
    ensures Run(world, Invocation(basedir, None), home, usage)
         == Exit(1, "", usage(None) + "\nmust specify a command\n")
  {
  }

  /** Exit codes: a usage error exits 1 with nothing on stdout; a command
      whose handler returns exits with exactly that code; NoNodeError exits
      1; an ImportError propagates. A web command exits 0 or 1, or
      propagates the ImportError of its lazy import, an exception of
      `webwait.command`, a KeyError or render_text's TypeError. */
  lemma RunExitCodes(world: World, inv: Invocation, home: string, usage: Option<Command> -> string)
    ensures ParseOptions(inv, home).Err? ==>
      var r := Run(world, inv, home, usage);
      r.Exit? && r.code == 1 && r.out == ""
    ensures ParseOptions(inv, home).Ok? ==>
      var cfg := ParseOptions(inv, home).value;
      var h := Handle(world, cfg.command, cfg.so);
      var r := Run(world, inv, home, usage);
      && (h.Returned? ==> r.Exit? && r.code == h.rc)
      && (h.Threw? && h.exc.NoNode? ==> r.Exit? && r.code == 1)
      && (h.Threw? && h.exc.ImportFailure? ==> r.Propagate? && r.exc == h.exc)
      && (Dispatch(cfg.command).Web? ==>
            var t := Dispatch(cfg.command);
            && (r.Exit? ==> r.code == 0 || r.code == 1)
            && (r.Propagate? ==>
                  || r.exc.ImportFailure?
                  || WebRaised(world, t.name, t.argnames, cfg.so, r.exc)
                  || (r.exc.Other? && (r.exc.failure.KeyError? || r.exc.failure.TypeError?))))
  {
  }

  /** `petmail restart` never opens the control panel, whatever the
      command line says. */
  lemma RestartForcesNoOpen(basedir: Option<string>, opts: Opts, args: seq<string>, home: string)
    ensures var r := ParseOptions(Invocation(basedir, Some(("restart", opts, args))), home);
      r.Ok? && r.value.command == Restart && Get(r.value.so.opts, "no-open") == Flag(false)
  {
  }

  /** `petmail test` with no arguments runs the "petmail" test suite. */
  lemma TestDefaultsToPetmail(basedir: Option<string>, opts: Opts, home: string)
    ensures var r := ParseOptions(Invocation(basedir, Some(("test", opts, []))), home);
      r.Ok? && r.value.command == Test && r.value.so.testArgs == ["petmail"]
  {
  }

  /** A sub-command given no basedir (neither as option nor as positional
      argument) uses the global one, which defaults to `~/.petmail`. */
  lemma BasedirInherited(inv: Invocation, home: string)
    requires inv.sub.Some? && !Truthy(Get(inv.sub.value.1, "basedir"))
    requires ParseOptions(inv, home).Ok?
    requires !ParseOptions(inv, home).value.command.Test?
    requires |inv.sub.value.2| == 0 || !(HasStartArguments(ParseOptions(inv, home).value.command)
                                        || HasBasedirArgument(ParseOptions(inv, home).value.command))
    ensures var cfg := ParseOptions(inv, home).value;
      Get(cfg.so.opts, "basedir") == Str(cfg.basedir)
  {
  }
}
