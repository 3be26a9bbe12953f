/** The channel catalog entry, `Models/Channel.cs`, reduced to the fields the worker reads. */
module Models {
  import opened Ints

  /** `ChannelId`, `TelegramChannelId` (the public @name used in t.me links) and `DisplayName`. */
  datatype Channel = Channel(channelId: int32, telegramChannelId: string, displayName: string)
}
