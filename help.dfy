/**
 * The `help` command: `!help` shows the four public categories, `!help <category>` lists
 * that category's visible commands, and `!help <command>` shows one command's details.
 * A category name wins over a command of the same name; hidden commands (the `admin` and
 * `mod` commands) are never listed and never described. Embed titles, colours and emoji
 * are presentation and are not modelled; a reply is the data it shows.
 */
module Help {
  import opened Wrappers
  import opened JsText
  import opened Platform
  import opened Registry

  /** The categories that `help` and the help buttons know. */
  const PublicCategories: seq<string> := ["economy", "games", "fun", "general"]

  /** The custom ids of the overview's four buttons, one per public category. */
  const OverviewButtons: seq<string> := ["help_economy", "help_games", "help_fun", "help_general"]

  const UsageTitle: string := "📝 Usage"
  const AliasesTitle: string := "🔄 Aliases"
  const CooldownTitle: string := "⏱️ Cooldown"
  const CategoryTitle: string := "📂 Category"
  const PermissionsTitle: string := "🔒 Required Permissions"

  datatype Field = Field(name: string, value: string, inline: bool)

  /** One command's line in a category listing: its name, its aliases, its description and usage. */
  datatype Entry = Entry(name: string, aliasText: string, description: string, usage: string)

  datatype HelpReply =
    | Overview
    | CategoryEmpty(category: string)
    | CategoryListing(category: string, shown: seq<Command>, entries: seq<Entry>)
    | NotFound(token: string)
    | HiddenCommand
    | CommandHelp(command: Command, fields: seq<Field>, backButton: string)

  // ---------------------------------------------------------------- category listing

  predicate Listable(c: Command, category: string) { c.category == category && !c.hidden }

  /** `commands.filter(cmd => cmd.category === category && !cmd.hidden)`. */
  function Listed(commands: seq<Command>, category: string): (r: seq<Command>)
    ensures forall c :: c in r ==> Listable(c, category)
    ensures forall c :: multiset(r)[c] == if Listable(c, category) then multiset(commands)[c] else 0
  {
    if commands == [] then []
    else
      var rest := Listed(commands[1..], category);
      assert commands == [commands[0]] + commands[1..];
      assert multiset(commands) == multiset{commands[0]} + multiset(commands[1..]);
      if Listable(commands[0], category) then [commands[0]] + rest else rest
  }

  /** The listing's text for one command; the usage falls back to the prefixed name. */
  function EntryOf(c: Command): Entry {
    Entry(Prefix + c.name,
      if |c.aliases| > 0 then "(" + Join(c.aliases, ", ") + ")" else "",
      c.description,
      if c.usage != "" then c.usage else Prefix + c.name)
  }

  function EntriesOf(cs: seq<Command>): (r: seq<Entry>)
    ensures |r| == |cs| && forall i :: 0 <= i < |cs| ==> r[i] == EntryOf(cs[i])
  {
    if cs == [] then [] else [EntryOf(cs[0])] + EntriesOf(cs[1..])
  }

  /** `showCategoryCommands`: the warning when nothing is listable, the listing otherwise. */
  function CategoryView(commands: seq<Command>, category: string): (r: HelpReply)
    ensures r.CategoryEmpty? || r.CategoryListing?
    ensures r.category == category
  {
    var shown := Listed(commands, category);
    if shown == [] then CategoryEmpty(category) else CategoryListing(category, shown, EntriesOf(shown))
  }

  /**
   * A listing holds exactly the visible commands of its category, each as often as it is
   * registered, and the empty warning appears exactly when there is none.
   */
  lemma CategoryViewExact(commands: seq<Command>, category: string)
    ensures var r := CategoryView(commands, category);
      && (r.CategoryEmpty? <==> forall c :: c in commands ==> !Listable(c, category))
      && (r.CategoryListing? ==>
            && (forall c :: c in r.shown <==> c in commands && Listable(c, category))
            && |r.entries| == |r.shown|)
  {
    var shown := Listed(commands, category);
    if shown == [] {
      forall c | c in commands ensures !Listable(c, category) {
        assert multiset(shown)[c] == 0;
      }
    } else {
      assert shown[0] in shown;
      assert multiset(shown)[shown[0]] > 0;
      forall c ensures c in shown <==> c in commands && Listable(c, category) {
        assert c in shown <==> multiset(shown)[c] > 0;
        assert c in commands <==> multiset(commands)[c] > 0;
      }
    }
  }

  /** A command listed without a usage of its own shows `!<name>` as its usage. */
  lemma ListingUsageFallback(commands: seq<Command>, category: string, i: nat)
    requires CategoryView(commands, category).CategoryListing?
    requires i < |CategoryView(commands, category).shown|
    requires CategoryView(commands, category).shown[i].usage == ""
    ensures CategoryView(commands, category).entries[i].usage == "!" + CategoryView(commands, category).shown[i].name
  {
  }

  // ---------------------------------------------------------------- one command

  function CategoryEmoji(category: string): string {
    if category == "economy" then "💰"
    else if category == "games" then "🎮"
    else if category == "fun" then "🎭"
    else if category == "general" then "🛠️"
    else if category == "moderation" then "🛡️"
    else if category == "admin" then "⚙️"
    else ""
  }

  /** `word.charAt(0) + word.slice(1).toLowerCase()`. */
  function TitleWord(w: string): string {
    if w == [] then [] else [w[0]] + ToLower(w[1..])
  }

  function TitleWords(ws: seq<string>): (r: seq<string>)
    ensures |r| == |ws| && forall i :: 0 <= i < |ws| ==> r[i] == TitleWord(ws[i])
  {
    if ws == [] then [] else [TitleWord(ws[0])] + TitleWords(ws[1..])
  }

  /** `text.split('_').map(titleWord).join(' ')`. */
  function FormatPermission(text: string): string {
    Join(TitleWords(SplitOn(text, '_')), " ")
  }

  /** The permissions list as written: each flag is formatted from its numeric string. */
  function PermissionTextsAsWritten(ps: seq<Permission>): (r: seq<string>)
    ensures |r| == |ps| && forall i :: 0 <= i < |ps| ==> r[i] == FormatPermission(NatToString(FlagBits(ps[i])))
  {
    if ps == [] then [] else [FormatPermission(NatToString(FlagBits(ps[0])))] + PermissionTextsAsWritten(ps[1..])
  }

  function PermissionsValueAsWritten(ps: seq<Permission>): string {
    Join(PermissionTextsAsWritten(ps), ", ")
  }

  /** The permissions list as intended: each flag is formatted from its name. */
  function PermissionTexts(ps: seq<Permission>): (r: seq<string>)
    ensures |r| == |ps| && forall i :: 0 <= i < |ps| ==> r[i] == FormatPermission(FlagName(ps[i]))
  {
    if ps == [] then [] else [FormatPermission(FlagName(ps[0]))] + PermissionTexts(ps[1..])
  }

  function PermissionsValue(ps: seq<Permission>): string {
    Join(PermissionTexts(ps), ", ")
  }

  /** Formatting leaves a decimal string as it is: it has no `_` and no upper-case letter. */
  lemma FormatDigits(d: string)
    requires AllDigits(d)
    ensures FormatPermission(d) == d
  {
    SplitOnAbsent(d, '_');
    if d != [] {
      ToLowerOfLower(d[1..]);
      assert d == [d[0]] + d[1..];
    }
  }

  /** `TitleWord` keeps the first letter and lowers the rest. */
  lemma TitleWordOf(first: char, rest: string)
    ensures TitleWord([first] + rest) == [first] + ToLower(rest)
  {
    assert ([first] + rest)[1..] == rest;
  }

  lemma LowerAnage()
    ensures ToLower("ANAGE") == "anage"
  {
    var r := ToLower("ANAGE");
    assert r[0] == 'a' && r[1] == 'n' && r[2] == 'a' && r[3] == 'g' && r[4] == 'e';
  }

  lemma LowerUild()
    ensures ToLower("UILD") == "uild"
  {
    var r := ToLower("UILD");
    assert r[0] == 'u' && r[1] == 'i' && r[2] == 'l' && r[3] == 'd';
  }

  /** Two words joined by `_` become the two title-case words joined by a space. */
  lemma FormatTwoWords(a: string, b: string)
    requires '_' !in a && '_' !in b
    ensures FormatPermission(a + ['_'] + b) == TitleWord(a) + " " + TitleWord(b)
  {
    SplitOnAfter(a, '_', b);
    SplitOnAbsent(b, '_');
    var titled := TitleWords([a, b]);
    assert titled == [TitleWord(a), TitleWord(b)];
    JoinTwo(TitleWord(a), TitleWord(b), " ");
  }

  lemma JoinTwo(a: string, b: string, sep: string)
    ensures Join([a, b], sep) == a + sep + b
  {
    assert [a, b][1..] == [b];
  }

  /** An upper snake case name becomes title-case words. */
  lemma FormatManageGuild()
    ensures FormatPermission("MANAGE_GUILD") == "Manage Guild"
  {
    assert "MANAGE_GUILD" == "MANAGE" + ['_'] + "GUILD";
    FormatTwoWords("MANAGE", "GUILD");
    TitleManage();
    TitleGuild();
    var r := "Manage" + " " + "Guild";
    assert |r| == 12 && r[6] == ' ';
    assert r == "Manage Guild";
  }

  lemma TitleManage()
    ensures TitleWord("MANAGE") == "Manage"
  {
    LowerAnage();
    assert "MANAGE" == ['M'] + "ANAGE";
    TitleWordOf('M', "ANAGE");
  }

  lemma TitleGuild()
    ensures TitleWord("GUILD") == "Guild"
  {
    LowerUild();
    assert "GUILD" == ['G'] + "UILD";
    TitleWordOf('G', "UILD");
  }

  /**
   * The finding: the permission flags are numbers, so as written the `Manage Guild`
   * requirement of `setchannel` and `welcome` is shown as `32`; the intended text is the
   * flag's name in title case.
   */
  lemma PermissionsShownAsNumbers()
    ensures PermissionsValueAsWritten([ManageGuild]) == "32"
    ensures PermissionsValue([ManageGuild]) == "Manage Guild"
  {
    assert NatToString(32) == "32";
    FormatDigits("32");
    assert PermissionTextsAsWritten([ManageGuild]) == ["32"];
    FormatManageGuild();
    assert PermissionTexts([ManageGuild]) == ["Manage Guild"];
  }

  /** Every flag is shown by its number, as written. */
  lemma AsWrittenShowsFlagBits(ps: seq<Permission>)
    ensures forall i :: 0 <= i < |ps| ==> PermissionTextsAsWritten(ps)[i] == NatToString(FlagBits(ps[i]))
  {
    forall i | 0 <= i < |ps| ensures PermissionTextsAsWritten(ps)[i] == NatToString(FlagBits(ps[i])) {
      FormatDigits(NatToString(FlagBits(ps[i])));
    }
  }

  function UsageField(c: Command): Field {
    Field(UsageTitle, "`" + (if c.usage != "" then c.usage else "!" + c.name) + "`", false)
  }

  function AliasesField(c: Command): Field { Field(AliasesTitle, Join(c.aliases, ", "), true) }

  function CooldownField(c: Command): Field { Field(CooldownTitle, NatToString(c.cooldown) + " seconds", true) }

  function CategoryField(c: Command): Field { Field(CategoryTitle, CategoryEmoji(c.category) + " " + c.category, true) }

  function PermissionsField(c: Command): Field { Field(PermissionsTitle, PermissionsValue(c.permissions), false) }

  /** The detail fields of one command, in the order the help text shows them. */
  function CommandFields(c: Command): seq<Field> {
    [UsageField(c)]
    + (if |c.aliases| > 0 then [AliasesField(c)] else [])
    + (if c.cooldown != 0 then [CooldownField(c)] else [])
    + (if c.category != "" then [CategoryField(c)] else [])
    + (if |c.permissions| > 0 then [PermissionsField(c)] else [])
  }

  function Titles(fields: seq<Field>): (r: seq<string>)
    ensures |r| == |fields| && forall i :: 0 <= i < |fields| ==> r[i] == fields[i].name
  {
    if fields == [] then [] else [fields[0].name] + Titles(fields[1..])
  }

  lemma TitlesConcat(a: seq<Field>, b: seq<Field>)
    ensures Titles(a + b) == Titles(a) + Titles(b)
  {
    assert |Titles(a + b)| == |Titles(a) + Titles(b)|;
    forall i | 0 <= i < |a + b| ensures Titles(a + b)[i] == (Titles(a) + Titles(b))[i] {
      if i >= |a| {
        assert (a + b)[i] == b[i - |a|];
      }
    }
  }

  /** A field with this title is among `fields`. */
  predicate Shows(fields: seq<Field>, title: string) { title in Titles(fields) }

  lemma ShowsConcat(a: seq<Field>, b: seq<Field>, title: string)
    ensures Shows(a + b, title) <==> Shows(a, title) || Shows(b, title)
  {
    TitlesConcat(a, b);
  }

  /** The five field titles differ from one another (already in their first character). */
  lemma TitlesDistinct()
    ensures UsageTitle != AliasesTitle && UsageTitle != CooldownTitle
    ensures UsageTitle != CategoryTitle && UsageTitle != PermissionsTitle
    ensures AliasesTitle != CooldownTitle && AliasesTitle != CategoryTitle && AliasesTitle != PermissionsTitle
    ensures CooldownTitle != CategoryTitle && CooldownTitle != PermissionsTitle && CategoryTitle != PermissionsTitle
  {
    assert UsageTitle[0] != AliasesTitle[0] && UsageTitle[0] != CooldownTitle[0];
    assert UsageTitle[0] != CategoryTitle[0] && UsageTitle[0] != PermissionsTitle[0];
    assert AliasesTitle[0] != CooldownTitle[0] && AliasesTitle[0] != CategoryTitle[0];
    assert AliasesTitle[0] != PermissionsTitle[0] && CooldownTitle[0] != CategoryTitle[0];
    assert CooldownTitle[0] != PermissionsTitle[0] && CategoryTitle[0] != PermissionsTitle[0];
  }

  /** Which titles the detail fields carry: the usage always, each other one when the command has it. */
  lemma CommandFieldTitles(c: Command, title: string)
    ensures Shows(CommandFields(c), title) <==>
      || title == UsageTitle
      || (title == AliasesTitle && |c.aliases| > 0)
      || (title == CooldownTitle && c.cooldown != 0)
      || (title == CategoryTitle && c.category != "")
      || (title == PermissionsTitle && |c.permissions| > 0)
  {
    var u := [UsageField(c)];
    var a := if |c.aliases| > 0 then [AliasesField(c)] else [];
    var b := if c.cooldown != 0 then [CooldownField(c)] else [];
    var k := if c.category != "" then [CategoryField(c)] else [];
    var p := if |c.permissions| > 0 then [PermissionsField(c)] else [];
    assert CommandFields(c) == u + a + b + k + p;
    ShowsOptional(true, UsageField(c), title);
    ShowsOptional(|c.aliases| > 0, AliasesField(c), title);
    ShowsOptional(c.cooldown != 0, CooldownField(c), title);
    ShowsOptional(c.category != "", CategoryField(c), title);
    ShowsOptional(|c.permissions| > 0, PermissionsField(c), title);
    ShowsConcat(u, a, title);
    ShowsConcat(u + a, b, title);
    ShowsConcat(u + a + b, k, title);
    ShowsConcat(u + a + b + k, p, title);
  }

  /** A field pushed only under a condition shows its title exactly when the condition holds. */
  lemma ShowsOptional(present: bool, f: Field, title: string)
    ensures Shows(if present then [f] else [], title) <==> present && title == f.name
  {
  }

  /** Every detail field is one of the five, each built from the command. */
  lemma CommandFieldMembers(c: Command, f: Field)
    requires f in CommandFields(c)
    ensures f == UsageField(c) || f == AliasesField(c) || f == CooldownField(c)
      || f == CategoryField(c) || f == PermissionsField(c)
  {
  }

  /**
   * The usage comes first and falls back to `!<name>`; the aliases, cooldown, category and
   * permissions fields appear exactly when the command has them, with their values.
   */
  lemma CommandFieldsShown(c: Command)
    ensures var fs := CommandFields(c);
      && fs[0].name == UsageTitle
      && fs[0].value == "`" + (if c.usage == "" then "!" + c.name else c.usage) + "`"
      && (Shows(fs, AliasesTitle) <==> |c.aliases| > 0)
      && (Shows(fs, CooldownTitle) <==> c.cooldown != 0)
      && (Shows(fs, CategoryTitle) <==> c.category != "")
      && (Shows(fs, PermissionsTitle) <==> |c.permissions| > 0)
      && (forall f :: f in fs && f.name == CooldownTitle ==> f.value == NatToString(c.cooldown) + " seconds")
      && (forall f :: f in fs && f.name == PermissionsTitle ==> f.value == PermissionsValue(c.permissions))
  {
    TitlesDistinct();
    CommandFieldTitles(c, AliasesTitle);
    CommandFieldTitles(c, CooldownTitle);
    CommandFieldTitles(c, CategoryTitle);
    CommandFieldTitles(c, PermissionsTitle);
    forall f | f in CommandFields(c)
      ensures f.name == CooldownTitle ==> f.value == NatToString(c.cooldown) + " seconds"
      ensures f.name == PermissionsTitle ==> f.value == PermissionsValue(c.permissions)
    {
      CommandFieldMembers(c, f);
    }
  }

  /** `showCommandHelp`'s fields, built by successive pushes. */
  method CommandHelpFields(c: Command) returns (fields: seq<Field>)
    ensures fields == CommandFields(c)
  {
    fields := [UsageField(c)];
    if |c.aliases| > 0 {
      fields := fields + [AliasesField(c)];
    }
    assert fields == [UsageField(c)] + (if |c.aliases| > 0 then [AliasesField(c)] else []);
    if c.cooldown != 0 {
      fields := fields + [CooldownField(c)];
    }
    assert fields == [UsageField(c)] + (if |c.aliases| > 0 then [AliasesField(c)] else [])
      + (if c.cooldown != 0 then [CooldownField(c)] else []);
    if c.category != "" {
      fields := fields + [CategoryField(c)];
    }
    assert fields == [UsageField(c)] + (if |c.aliases| > 0 then [AliasesField(c)] else [])
      + (if c.cooldown != 0 then [CooldownField(c)] else [])
      + (if c.category != "" then [CategoryField(c)] else []);
    if |c.permissions| > 0 {
      fields := fields + [PermissionsField(c)];
    }
  }

  /** The back button's custom id: `help_<category>`, or `help_back` without a category. */
  function BackButtonId(c: Command): (id: string)
    ensures StartsWith(id, "help_")
    ensures c.category != "" ==> id[5..] == c.category
    ensures c.category == "" ==> id == "help_back"
  {
    "help_" + (if c.category != "" then c.category else "back")
  }

  /** `showCommandHelp`: a hidden command is refused, any other is described. */
  function ShowCommand(c: Command): (r: HelpReply)
    ensures r == HiddenCommand <==> c.hidden
    ensures r.CommandHelp? ==> r.command == c && r.fields == CommandFields(c) && r.backButton == BackButtonId(c)
  {
    if c.hidden then HiddenCommand else CommandHelp(c, CommandFields(c), BackButtonId(c))
  }

  /** `help.execute`. */
  function HelpOf(commands: seq<Command>, args: seq<string>): (r: HelpReply)
    ensures r == Overview <==> args == []
    ensures (r.CategoryEmpty? || r.CategoryListing?) <==> args != [] && ToLower(args[0]) in PublicCategories
    ensures (r.CategoryEmpty? || r.CategoryListing?) ==> r == CategoryView(commands, ToLower(args[0]))
    ensures r.NotFound? <==>
      && args != [] && ToLower(args[0]) !in PublicCategories
      && (Resolve(commands, ToLower(args[0])).None? || Resolve(commands, ToLower(args[0])).value.hidden)
    ensures r.CommandHelp? ==> Resolve(commands, ToLower(args[0])) == Some(r.command) && !r.command.hidden
    ensures r != HiddenCommand
  {
    if args == [] then Overview
    else
      var token := ToLower(args[0]);
      if token in PublicCategories then CategoryView(commands, token)
      else match Resolve(commands, token)
        case None => NotFound(token)
        case Some(c) => if c.hidden then NotFound(token) else ShowCommand(c)
  }

  /** `!help Economy` lists the economy category even when a command is named `economy`. */
  lemma CategoryBeforeCommand(commands: seq<Command>, args: seq<string>, c: Command)
    requires args != [] && ToLower(args[0]) in PublicCategories
    requires c in commands && c.name == ToLower(args[0])
    ensures !HelpOf(commands, args).CommandHelp?
    ensures HelpOf(commands, args) == CategoryView(commands, ToLower(args[0]))
  {
  }

  /** No `help` reply ever shows a hidden command, by name or in a listing. */
  lemma HiddenNeverShown(commands: seq<Command>, args: seq<string>)
    ensures var r := HelpOf(commands, args);
      && (r.CommandHelp? ==> !r.command.hidden)
      && (r.CategoryListing? ==> forall c :: c in r.shown ==> !c.hidden)
  {
  }
}
