/**
 * `TelegramSender._load_messages_config` (telegram_sender.py): the message
 * configurations the sender delivers when no single definition is given.
 * They come from the YAML file when it yields any, else from the numbered
 * environment variables `MESSAGE_i` / `RECIPIENTS_i` / `IMAGE_PATHS_i`, else
 * from the single-message variables.  The file and the environment are
 * inputs: the file as what `yaml.safe_load` made of it, the environment as a
 * map from variable name to value.
 */
module SenderConfig {
  import opened Basics
  import opened Strings

  /** One configuration to deliver: the text, the recipient tokens and the attachment paths. */
  datatype MessageConfig = MessageConfig(message: string, recipients: seq<string>, imagePaths: seq<string>)

  // ---------------------------------------------------------------------------
  // The YAML file

  /** A field that may be written as a YAML list or as one comma-separated string. */
  datatype Field = YamlString(s: string) | YamlList(xs: seq<string>)

  /** A string field is split on commas, stripped, and blank pieces dropped; a list is taken as it is. */
  function AsList(f: Field): seq<string>
  {
    match f
    case YamlString(s) => SplitList(s)
    case YamlList(xs) => xs
  }

  /** One value under `messages`: a mapping whose keys may be missing, or something else (`.get` raises). */
  datatype Entry =
    | Mapping(recipients: Option<Field>, imagePaths: Option<Field>, text: Option<string>)
    | NotMapping(error: string)

  /** The value of `messages`: its entries in document order, or something without `.items()`. */
  datatype MessagesValue = Entries(entries: seq<Entry>) | NotEntries(error: string)

  /** What `yaml.safe_load` makes of an existing file. */
  datatype YamlFile =
    | Unreadable(error: string)        // the file cannot be read or parsed
    | Empty                            // a falsy document
    | WithoutMessages                  // a document without a `messages` key
    | WithMessages(value: MessagesValue)

  const FallbackNotice: string := "   Falling back to environment variables"

  /** The two lines logged when loading the YAML file raised. */
  function YamlWarnings(error: string): seq<string>
  {
    ["⚠ Warning: Could not load YAML config: " + error, FallbackNotice]
  }

  /** No configuration is without both recipients and text. */
  predicate HasContent(cs: seq<MessageConfig>)
  {
    forall k :: 0 <= k < |cs| ==> cs[k].recipients != [] || cs[k].message != ""
  }

  lemma AppendAssoc(a: seq<MessageConfig>, b: seq<MessageConfig>, c: seq<MessageConfig>)
    ensures (a + b) + c == a + (b + c) && a + [] == a
  {
  }

  lemma HasContentAppend(a: seq<MessageConfig>, b: seq<MessageConfig>)
    requires HasContent(a) && HasContent(b)
    ensures HasContent(a + b)
  {
    forall k | 0 <= k < |a + b|
      ensures (a + b)[k].recipients != [] || (a + b)[k].message != ""
    {
      if k >= |a| {
        assert (a + b)[k] == b[k - |a|];
      }
    }
  }

  /**
   * The configuration an entry contributes: kept exactly when it has
   * recipients or text, with its own fields; a missing key reads as empty.
   */
  function EntryConfig(recipients: Option<Field>, imagePaths: Option<Field>, text: Option<string>): (r: seq<MessageConfig>)
    ensures |r| <= 1 && HasContent(r)
    ensures r == [] <==> (recipients.None? || AsList(recipients.value) == []) && (text.None? || text.value == "")
    ensures r != [] ==> r[0] == MessageConfig(if text.Some? then text.value else "",
                                              if recipients.Some? then AsList(recipients.value) else [],
                                              if imagePaths.Some? then AsList(imagePaths.value) else [])
  {
    var r := if recipients.Some? then AsList(recipients.value) else [];
    var p := if imagePaths.Some? then AsList(imagePaths.value) else [];
    var t := if text.Some? then text.value else "";
    Kept(MessageConfig(t, r, p))
  }

  /** `if recipients or text: configs.append(...)`: a configuration is kept exactly when it has recipients or text. */
  function Kept(c: MessageConfig): (cs: seq<MessageConfig>)
    ensures |cs| <= 1 && HasContent(cs)
    ensures cs == [] <==> c.recipients == [] && c.message == ""
    ensures cs != [] ==> cs[0] == c
  {
    if c.recipients != [] || c.message != "" then [c] else []
  }

  /** The loop over `messages.items()`: the configurations kept, and the error that ended the loop early. */
  function ReadEntries(es: seq<Entry>): (seq<MessageConfig>, Option<string>)
  {
    if es == [] then ([], None)
    else match es[0]
      case NotMapping(e) => ([], Some(e))
      case Mapping(r, p, t) =>
        var rest := ReadEntries(es[1..]);
        (EntryConfig(r, p, t) + rest.0, rest.1)
  }

  /** The YAML part: configurations collected, lines logged, and whether they are returned at once. */
  datatype YamlStage = YamlStage(configs: seq<MessageConfig>, warnings: seq<string>, done: bool)

  function ReadYaml(file: Option<YamlFile>): YamlStage
  {
    match file
    case None => YamlStage([], [], false)
    case Some(Unreadable(e)) => YamlStage([], YamlWarnings(e), false)
    case Some(Empty) => YamlStage([], [], false)
    case Some(WithoutMessages) => YamlStage([], [], false)
    case Some(WithMessages(NotEntries(e))) => YamlStage([], YamlWarnings(e), false)
    case Some(WithMessages(Entries(es))) =>
      var (cs, err) := ReadEntries(es);
      if err.Some? then YamlStage(cs, YamlWarnings(err.value), false) else YamlStage(cs, [], cs != [])
  }

  /** The YAML file raised while it was read: it is unreadable, `messages` has no entries, or an entry is not a mapping. */
  predicate YamlRaised(file: Option<YamlFile>)
  {
    match file
    case Some(Unreadable(_)) => true
    case Some(WithMessages(NotEntries(_))) => true
    case Some(WithMessages(Entries(es))) => ReadEntries(es).1.Some?
    case _ => false
  }

  // ---------------------------------------------------------------------------
  // The environment

  type Env = map<string, string>

  function MessageKey(i: nat): string { "MESSAGE_" + NatToString(i) }
  function RecipientsKey(i: nat): string { "RECIPIENTS_" + NatToString(i) }
  function ImagesKey(i: nat): string { "IMAGE_PATHS_" + NatToString(i) }

  /** `os.getenv(k)` */
  function Lookup(env: Env, k: string): Option<string>
  {
    if k in env then Some(env[k]) else None
  }

  /** `os.getenv(k, d)`: a variable that is set is used even when it is empty. */
  function GetOr(env: Env, k: string, d: string): string
  {
    if k in env then env[k] else d
  }

  /** Python truthiness of `os.getenv(k)`: set and non-empty. */
  predicate Truthy(v: Option<string>)
  {
    v.Some? && v.value != ""
  }

  /** The values of `MESSAGE_i`, `RECIPIENTS_i` and `IMAGE_PATHS_i`. */
  datatype Group = Group(message: Option<string>, recipients: Option<string>, imagePaths: Option<string>)

  function GroupAt(env: Env, i: nat): Group
  {
    Group(Lookup(env, MessageKey(i)), Lookup(env, RecipientsKey(i)), Lookup(env, ImagesKey(i)))
  }

  /** `if not message and not recipients: break` does not fire for this group. */
  predicate GroupPresent(g: Group)
  {
    Truthy(g.message) || Truthy(g.recipients)
  }

  /** The numbered scan goes on past `i` while `MESSAGE_i` or `RECIPIENTS_i` is non-empty. */
  predicate Present(env: Env, i: nat)
  {
    GroupPresent(GroupAt(env, i))
  }

  /** Every index from 1 up to, not including, `i` is present. */
  predicate PresentBelow(env: Env, i: nat)
  {
    forall j :: 1 <= j < i ==> Present(env, j)
  }

  /** `os.getenv('RECIPIENTS', os.getenv('GROUP_IDS', ''))` as a list. */
  function SharedRecipients(env: Env): seq<string>
  {
    SplitList(GetOr(env, "RECIPIENTS", GetOr(env, "GROUP_IDS", "")))
  }

  /** `[p.strip() for p in v.split(',') if p.strip()]` when the variable is set and non-empty, else `otherwise`. */
  function ListOr(v: Option<string>, otherwise: seq<string>): seq<string>
  {
    if Truthy(v) then SplitList(v.value) else otherwise
  }

  /** What one numbered group contributes, from the values of its three variables. */
  function GroupConfig(message: Option<string>, recipients: seq<string>, paths: seq<string>): (cs: seq<MessageConfig>)
    ensures |cs| <= 1 && HasContent(cs)
    ensures cs == [] <==> !Truthy(message) && recipients == []
    ensures cs != [] ==> cs[0] == MessageConfig(if Truthy(message) then message.value else "", recipients, paths)
  {
    Kept(MessageConfig(if Truthy(message) then message.value else "", recipients, paths))
  }

  /** What one group contributes, `shared` being the fallback recipients. */
  function GroupConfigs(g: Group, shared: seq<string>): seq<MessageConfig>
  {
    GroupConfig(g.message, ListOr(g.recipients, shared), ListOr(g.imagePaths, []))
  }

  /** What the numbered variables with index `i` contribute. */
  function NumberedConfig(env: Env, i: nat): seq<MessageConfig>
  {
    GroupConfigs(GroupAt(env, i), SharedRecipients(env))
  }

  /** What a run of groups contributes, in order. */
  function RunConfigs(gs: seq<Group>, shared: seq<string>): (cs: seq<MessageConfig>)
    ensures HasContent(cs)
  {
    if gs == [] then []
    else
      var head, rest := GroupConfigs(gs[0], shared), RunConfigs(gs[1..], shared);
      HasContentAppend(head, rest);
      head + rest
  }

  lemma KeyPrefixesDiffer(a: nat, b: nat)
    ensures MessageKey(a) != RecipientsKey(b) && MessageKey(a) != ImagesKey(b) && RecipientsKey(a) != ImagesKey(b)
  {
    assert MessageKey(a)[0] == 'M' && RecipientsKey(b)[0] == 'R' && ImagesKey(b)[0] == 'I';
    assert RecipientsKey(a)[0] == 'R';
  }

  lemma MessageKeyInjective(a: nat, b: nat)
    requires MessageKey(a) == MessageKey(b)
    ensures a == b
  {
    assert NatToString(a) == MessageKey(a)[8..] && NatToString(b) == MessageKey(b)[8..];
    NatToStringInjective(a, b);
  }

  lemma RecipientsKeyInjective(a: nat, b: nat)
    requires RecipientsKey(a) == RecipientsKey(b)
    ensures a == b
  {
    assert NatToString(a) == RecipientsKey(a)[11..] && NatToString(b) == RecipientsKey(b)[11..];
    NatToStringInjective(a, b);
  }

  lemma ImagesKeyInjective(a: nat, b: nat)
    requires ImagesKey(a) == ImagesKey(b)
    ensures a == b
  {
    assert NatToString(a) == ImagesKey(a)[12..] && NatToString(b) == ImagesKey(b)[12..];
    NatToStringInjective(a, b);
  }

  /** A run of present indices 1..i sets at least i distinct variables. */
  lemma PresentRunBound(env: Env, i: nat)
    requires i >= 1 && PresentBelow(env, i + 1)
    ensures i <= |env.Keys|
  {
    var f := (j: nat) => if Truthy(Lookup(env, MessageKey(j))) then MessageKey(j) else RecipientsKey(j);
    forall a: nat, b: nat | 1 <= a < b < i + 1
      ensures f(a) != f(b)
    {
      KeyPrefixesDiffer(a, b);
      KeyPrefixesDiffer(b, a);
      if MessageKey(a) == MessageKey(b) {
        MessageKeyInjective(a, b);
      }
      if RecipientsKey(a) == RecipientsKey(b) {
        RecipientsKeyInjective(a, b);
      }
    }
    forall j: nat | 1 <= j < i + 1
      ensures f(j) in env.Keys
    {
      assert Present(env, j);
    }
    Pigeonhole(f, 1, i + 1, env.Keys);
  }

  /** The groups the numbered scan reads from index `i` on: it stops at the first index with neither variable set. */
  function GroupRun(env: Env, i: nat): (gs: seq<Group>)
    requires i >= 1 && PresentBelow(env, i)
    ensures forall g | g in gs :: GroupPresent(g)
    decreases |env.Keys| + 1 - i
  {
    if !Present(env, i) then []
    else
      PresentRunBound(env, i);
      [GroupAt(env, i)] + GroupRun(env, i + 1)
  }

  /** The configurations of the numbered scan from index `i` on. */
  function Numbered(env: Env, i: nat): (cs: seq<MessageConfig>)
    requires i >= 1 && PresentBelow(env, i)
    ensures HasContent(cs)
  {
    RunConfigs(GroupRun(env, i), SharedRecipients(env))
  }

  lemma GroupRunStep(env: Env, i: nat)
    requires i >= 1 && PresentBelow(env, i) && Present(env, i)
    ensures i <= |env.Keys| && PresentBelow(env, i + 1)
    ensures GroupRun(env, i) == [GroupAt(env, i)] + GroupRun(env, i + 1)
  {
    PresentRunBound(env, i);
  }

  lemma NumberedStep(env: Env, i: nat)
    requires i >= 1 && PresentBelow(env, i) && Present(env, i)
    ensures i <= |env.Keys| && PresentBelow(env, i + 1)
    ensures Numbered(env, i) == NumberedConfig(env, i) + Numbered(env, i + 1)
  {
    GroupRunStep(env, i);
    var gs := GroupRun(env, i);
    assert gs[0] == GroupAt(env, i) && gs[1..] == GroupRun(env, i + 1);
  }

  const DefaultMessage: string := "Hello from automated daily message!"

  /** The single-message variables, used when nothing else yielded a configuration. */
  function SingleConfig(env: Env): seq<MessageConfig>
  {
    SingleFrom(GetOr(env, "RECIPIENTS", GetOr(env, "GROUP_IDS", "")),
               GetOr(env, "MESSAGE", DefaultMessage),
               GetOr(env, "IMAGE_PATHS", GetOr(env, "IMAGE_PATH", "")))
  }

  /** The single-message configuration from the values read, defaults applied. */
  function SingleFrom(recipients: string, message: string, images: string): (cs: seq<MessageConfig>)
    ensures |cs| <= 1 && HasContent(cs)
    ensures cs == [] <==> message == "" && SplitList(recipients) == []
    ensures cs != [] ==> cs[0].message == message
  {
    var list := if recipients != "" then SplitList(recipients) else [];
    var paths := if images != "" then SplitList(images) else [];
    assert list == SplitList(recipients) by {
      if recipients == "" {
        SplitListBlank("");
      }
    }
    Kept(MessageConfig(message, list, paths))
  }

  /** The result of `_load_messages_config`, with the lines it logs. */
  datatype Loaded = Loaded(configs: seq<MessageConfig>, warnings: seq<string>)

  function Load(file: Option<YamlFile>, env: Env): Loaded
  {
    Assemble(ReadYaml(file), Numbered(env, 1), SingleConfig(env))
  }

  /**
   * The YAML stage's configurations alone when it is done; otherwise they
   * are followed by the numbered ones, and the single-message fallback is
   * used only when both are empty.
   */
  function Assemble(y: YamlStage, numbered: seq<MessageConfig>, single: seq<MessageConfig>): Loaded
  {
    if y.done then Loaded(y.configs, y.warnings)
    else
      var c := y.configs + numbered;
      Loaded(if c == [] then single else c, y.warnings)
  }

  // ---------------------------------------------------------------------------
  // The loader, as the source writes it

  /** The loop over the YAML entries: stops at the first entry that is not a mapping. */
  method ReadYamlEntries(es: seq<Entry>) returns (configs: seq<MessageConfig>, error: Option<string>)
    ensures (configs, error) == ReadEntries(es)
  {
    configs, error := [], None;
    var k := 0;
    while k < |es| && error.None?
      invariant 0 <= k <= |es|
      decreases |es| - k, if error.None? then 1 else 0
      invariant error.None? ==> configs + ReadEntries(es[k..]).0 == ReadEntries(es).0 &&
                                ReadEntries(es[k..]).1 == ReadEntries(es).1
      invariant error.Some? ==> (configs, error) == ReadEntries(es)
    {
      match es[k]
      case NotMapping(e) =>
        assert ReadEntries(es[k..]) == ([], Some(e));
        assert configs + [] == configs;
        error := Some(e);
      case Mapping(r, p, t) =>
        assert es[k..][1..] == es[k + 1..];
        configs := configs + EntryConfig(r, p, t);
        k := k + 1;
    }
    if error.None? {
      assert es[k..] == [];
      assert configs + [] == configs;
    }
  }

  /** The `while True` loop over `MESSAGE_i` / `RECIPIENTS_i`, appending to what the YAML file gave. */
  method ReadNumbered(env: Env, fromYaml: seq<MessageConfig>) returns (configs: seq<MessageConfig>)
    ensures configs == fromYaml + Numbered(env, 1)
  {
    configs := fromYaml;
    var i := 1;
    while Present(env, i)
      invariant i >= 1 && PresentBelow(env, i)
      invariant configs + Numbered(env, i) == fromYaml + Numbered(env, 1)
      decreases |env.Keys| + 1 - i
    {
      NumberedStep(env, i);
      AppendAssoc(configs, NumberedConfig(env, i), Numbered(env, i + 1));
      configs := configs + NumberedConfig(env, i);
      i := i + 1;
    }
    AppendAssoc(configs, [], []);
  }

  /**
   * The `try` block over the YAML file: the configurations collected, the
   * warnings logged by the `except` clause, and whether the loader returns
   * the configurations at once.
   */
  method ReadYamlFile(file: Option<YamlFile>) returns (configs: seq<MessageConfig>, warnings: seq<string>, done: bool)
    ensures YamlStage(configs, warnings, done) == ReadYaml(file)
  {
    configs, warnings, done := [], [], false;
    if file.Some? {
      match file.value
      case Unreadable(e) =>
        warnings := YamlWarnings(e);
      case Empty =>
      case WithoutMessages =>
      case WithMessages(NotEntries(e)) =>
        warnings := YamlWarnings(e);
      case WithMessages(Entries(es)) =>
        var error;
        configs, error := ReadYamlEntries(es);
        if error.Some? {
          warnings := YamlWarnings(error.value);
        } else {
          done := configs != [];
        }
    }
  }

  method LoadMessagesConfig(file: Option<YamlFile>, env: Env) returns (configs: seq<MessageConfig>, warnings: seq<string>)
    ensures Loaded(configs, warnings) == Load(file, env)
  {
    var done;
    configs, warnings, done := ReadYamlFile(file);
    if done {
      return;
    }
    configs := ReadNumbered(env, configs);
    if configs == [] {
      configs := SingleConfig(env);
    }
  }

  // ---------------------------------------------------------------------------
  // Properties

  /** Every loaded configuration has recipients or text. */
  lemma LoadedConfigsHaveContent(file: Option<YamlFile>, env: Env)
    ensures HasContent(Load(file, env).configs)
  {
    YamlConfigsHaveContent(file);
    AssembleHasContent(ReadYaml(file), Numbered(env, 1), SingleConfig(env));
  }

  lemma AssembleHasContent(y: YamlStage, numbered: seq<MessageConfig>, single: seq<MessageConfig>)
    requires HasContent(y.configs) && HasContent(numbered) && HasContent(single)
    ensures HasContent(Assemble(y, numbered, single).configs)
  {
    HasContentAppend(y.configs, numbered);
  }

  lemma YamlConfigsHaveContent(file: Option<YamlFile>)
    ensures HasContent(ReadYaml(file).configs)
  {
    if file.Some? && file.value.WithMessages? && file.value.value.Entries? {
      EntriesHaveContent(file.value.value.entries);
    }
  }

  lemma {:induction false} EntriesHaveContent(es: seq<Entry>)
    ensures HasContent(ReadEntries(es).0)
  {
    if es != [] && es[0].Mapping? {
      EntriesHaveContent(es[1..]);
    }
  }

  /** A YAML file that loads cleanly and yields configurations is used alone: the environment is not read. */
  lemma YamlShadowsEnvironment(file: Option<YamlFile>, env1: Env, env2: Env)
    requires ReadYaml(file).done
    ensures Load(file, env1) == Load(file, env2) == Loaded(ReadYaml(file).configs, [])
  {
    YamlStageWarnings(file);
    var y := ReadYaml(file);
    assert Assemble(y, Numbered(env1, 1), SingleConfig(env1)) == Loaded(y.configs, y.warnings);
    assert Assemble(y, Numbered(env2, 1), SingleConfig(env2)) == Loaded(y.configs, y.warnings);
  }

  /**
   * The two warning lines are logged exactly when reading the YAML file
   * raised; the configurations kept before the failing entry are not
   * discarded but come first in the result.
   */
  lemma WarningsExactlyOnYamlError(file: Option<YamlFile>, env: Env)
    ensures Load(file, env).warnings != [] <==> YamlRaised(file)
    ensures YamlRaised(file) ==> |Load(file, env).warnings| == 2 && Load(file, env).warnings[1] == FallbackNotice
    ensures YamlRaised(file) && ReadYaml(file).configs != [] ==>
              Load(file, env).configs == ReadYaml(file).configs + Numbered(env, 1)
  {
    YamlStageWarnings(file);
    var y := ReadYaml(file);
    assert Load(file, env).warnings == y.warnings;
    if YamlRaised(file) && y.configs != [] {
      var c := y.configs + Numbered(env, 1);
      assert c != [] by {
        assert |c| >= |y.configs| > 0;
      }
    }
  }

  /** What reading the YAML file logs does not depend on the environment. */
  lemma YamlStageWarnings(file: Option<YamlFile>)
    ensures ReadYaml(file).warnings != [] <==> YamlRaised(file)
    ensures YamlRaised(file) ==> !ReadYaml(file).done && |ReadYaml(file).warnings| == 2 && ReadYaml(file).warnings[1] == FallbackNotice
  {
  }

  /** The single-message fallback yields at most one configuration, and none only when `MESSAGE` is set empty and no recipient is configured. */
  lemma SingleConfigShape(env: Env)
    ensures SingleConfig(env) == [] <==>
              ("MESSAGE" in env && env["MESSAGE"] == "" &&
               SplitList(GetOr(env, "RECIPIENTS", GetOr(env, "GROUP_IDS", ""))) == [])
    ensures "MESSAGE" !in env ==> SingleConfig(env) != [] && SingleConfig(env)[0].message == DefaultMessage
  {
    var msg := GetOr(env, "MESSAGE", DefaultMessage);
    DefaultMessageNotEmpty();
    assert msg == "" <==> "MESSAGE" in env && env["MESSAGE"] == "";
  }

  lemma DefaultMessageNotEmpty()
    ensures DefaultMessage != ""
  {
    assert DefaultMessage[0] == 'H';
  }

  /** Two environments that give the same values to the numbered variables up to `k`. */
  predicate AgreeUpTo(env1: Env, env2: Env, k: nat)
  {
    forall j | 1 <= j <= k :: GroupAt(env1, j) == GroupAt(env2, j)
  }

  /** Setting `MESSAGE_m` changes none of the variables the scan reads before index `m`. */
  lemma LaterMessageAgrees(env: Env, k: nat, m: nat, v: string)
    requires k < m
    ensures AgreeUpTo(env, env[MessageKey(m) := v], k)
    ensures SharedRecipients(env) == SharedRecipients(env[MessageKey(m) := v])
  {
    var env' := env[MessageKey(m) := v];
    forall j | 1 <= j <= k
      ensures GroupAt(env, j) == GroupAt(env', j)
    {
      KeyPrefixesDiffer(m, j);
      if MessageKey(j) == MessageKey(m) {
        MessageKeyInjective(j, m);
      }
    }
    assert GetOr(env', "RECIPIENTS", GetOr(env', "GROUP_IDS", "")) == GetOr(env, "RECIPIENTS", GetOr(env, "GROUP_IDS", "")) by {
      assert MessageKey(m)[0] == 'M';
    }
  }

  /** Environments that agree up to `k` give the same group at every index up to `k`. */
  lemma GroupAgree(env1: Env, env2: Env, i: nat, k: nat)
    requires 1 <= i <= k && AgreeUpTo(env1, env2, k)
    ensures GroupAt(env1, i) == GroupAt(env2, i)
  {
  }

  /** Environments that agree up to the first absent index `k` read the same groups. */
  lemma {:induction false} GroupRunAgree(env1: Env, env2: Env, i: nat, k: nat)
    requires 1 <= i <= k && !Present(env1, k) && PresentBelow(env1, k)
    requires AgreeUpTo(env1, env2, k) && PresentBelow(env2, i)
    ensures GroupRun(env1, i) == GroupRun(env2, i)
    decreases k - i
  {
    GroupAgree(env1, env2, i, k);
    if i < k {
      assert Present(env1, i);
      GroupRunStep(env1, i);
      GroupRunStep(env2, i);
      GroupRunAgree(env1, env2, i + 1, k);
    }
  }

  /**
   * The numbered scan stops at the first index `k` with neither `MESSAGE_k`
   * nor `RECIPIENTS_k` set: a `MESSAGE_m` for any later `m` is ignored.
   */
  lemma NumberedStopsAtGap(env: Env, k: nat, m: nat, v: string)
    requires 1 <= k < m && !Present(env, k)
    requires PresentBelow(env, k)
    ensures PresentBelow(env[MessageKey(m) := v], 1)
    ensures Numbered(env[MessageKey(m) := v], 1) == Numbered(env, 1)
  {
    LaterMessageAgrees(env, k, m, v);
    GroupRunAgree(env, env[MessageKey(m) := v], 1, k);
  }
}
