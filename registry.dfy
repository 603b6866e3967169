/**
 * The command registry `client.commands`: a collection of command modules keyed by name,
 * each with its metadata. A command is looked up by its exact name first; failing that,
 * by the first command (in registration order) whose aliases contain the token. Both the
 * message dispatcher and the help command resolve tokens this way.
 */
module Registry {
  import opened Wrappers
  import opened Platform

  /**
   * A command module's metadata. JavaScript's falsy values stand for a missing field:
   * an empty `category` or `usage`, a `cooldown` of 0, and empty `aliases` or
   * `permissions` lists all read as absent.
   */
  datatype Command = Command(
    name: string,
    description: string,
    aliases: seq<string>,
    category: string,
    usage: string,
    cooldown: nat,
    permissions: seq<Permission>,
    hidden: bool)

  predicate HasAlias(c: Command, token: string) { token in c.aliases }

  /**
   * The position of the command registered under `token`, if any. Command names are
   * distinct in the bot, so the first is the only one; with duplicate names the collection
   * would keep the last one registered instead.
   */
  function FindByName(commands: seq<Command>, token: string): (r: Option<nat>)
    ensures r.Some? ==> r.value < |commands| && commands[r.value].name == token
    ensures r.Some? ==> forall j :: 0 <= j < r.value ==> commands[j].name != token
    ensures r.None? <==> forall j :: 0 <= j < |commands| ==> commands[j].name != token
  {
    if commands == [] then None
    else if commands[0].name == token then Some(0)
    else match FindByName(commands[1..], token)
      case None => None
      case Some(i) => Some(i + 1)
  }

  /** The position of the first command whose aliases contain `token`, if any. */
  function FindByAlias(commands: seq<Command>, token: string): (r: Option<nat>)
    ensures r.Some? ==> r.value < |commands| && HasAlias(commands[r.value], token)
    ensures r.Some? ==> forall j :: 0 <= j < r.value ==> !HasAlias(commands[j], token)
    ensures r.None? <==> forall j :: 0 <= j < |commands| ==> !HasAlias(commands[j], token)
  {
    if commands == [] then None
    else if HasAlias(commands[0], token) then Some(0)
    else match FindByAlias(commands[1..], token)
      case None => None
      case Some(i) => Some(i + 1)
  }

  /** `commands.get(token) || commands.find(cmd => cmd.aliases && cmd.aliases.includes(token))`. */
  function Resolve(commands: seq<Command>, token: string): (r: Option<Command>)
    ensures r.Some? ==> r.value in commands && (r.value.name == token || HasAlias(r.value, token))
    ensures r.None? <==> forall c :: c in commands ==> c.name != token && !HasAlias(c, token)
    ensures (exists c :: c in commands && c.name == token) ==> r.Some? && r.value.name == token
  {
    match FindByName(commands, token)
    case Some(i) => Some(commands[i])
    case None =>
      match FindByAlias(commands, token)
      case Some(i) => Some(commands[i])
      case None => None
  }

  /**
   * When no command has `token` as its name, the one resolved is the first whose
   * aliases contain it: an earlier alias wins over a later one.
   */
  lemma ResolveFirstAlias(commands: seq<Command>, token: string, i: nat)
    requires forall c :: c in commands ==> c.name != token
    requires i < |commands| && HasAlias(commands[i], token)
    requires forall j :: 0 <= j < i ==> !HasAlias(commands[j], token)
    ensures Resolve(commands, token) == Some(commands[i])
  {
    assert FindByName(commands, token).None? by {
      forall j | 0 <= j < |commands| ensures commands[j].name != token {
        assert commands[j] in commands;
      }
    }
  }
}
