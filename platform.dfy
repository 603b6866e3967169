/**
 * What the bot knows about the chat platform and its own configuration: the permission
 * flags its commands ask for, the developer account that every check lets through, and
 * the client configuration (`prefix`, `defaultCooldown`).
 */
module Platform {
  /** The developer's user id; the permission checks of `mod`, `admin` and the dispatcher skip it. */
  const DeveloperId: string := "918152747377905675"

  /** The permission flags the commands name. */
  datatype Permission = BanMembers | KickMembers | ModerateMembers | ManageChannels | ManageGuild

  /** The flag's value in the platform library's `PermissionFlagsBits`: one bit each. */
  function FlagBits(p: Permission): nat {
    match p
    case KickMembers => 2
    case BanMembers => 4
    case ManageChannels => 16
    case ManageGuild => 32
    case ModerateMembers => 0x100_0000_0000
  }

  /** The flag's name in upper snake case, the form the help text formatting expects. */
  function FlagName(p: Permission): string {
    match p
    case KickMembers => "KICK_MEMBERS"
    case BanMembers => "BAN_MEMBERS"
    case ManageChannels => "MANAGE_CHANNELS"
    case ManageGuild => "MANAGE_GUILD"
    case ModerateMembers => "MODERATE_MEMBERS"
  }

  /** `client.config.prefix`. */
  const Prefix: string := "!"

  /** `client.config.defaultCooldown`, in seconds. */
  const DefaultCooldown: nat := 3
}
