/**
 * The parts of the Telegram Bot API the worker touches: the update it
 * receives (Telegram.Bot's `Update`, `Message`, `CallbackQuery`) and the
 * outbound calls it makes through `ITelegramBotClient`, recorded as values.
 */
module Telegram {
  import opened Wrappers
  import opened Ints

  datatype Chat = Chat(id: int64)

  datatype User = User(id: int64)

  /** `From` is null for messages sent on behalf of a channel; `Text` is null for non-text messages. */
  datatype Message = Message(chat: Chat, from: Option<User>, text: Option<string>)

  /** `Message` is null when the pressed button belongs to an inline-mode message. */
  datatype CallbackQuery = CallbackQuery(id: string, from: User, message: Option<Message>, data: Option<string>)

  /** An update as GetUpdates returns it; the worker asks only for messages and callback queries. */
  datatype Update = Update(id: int32, message: Option<Message>, callbackQuery: Option<CallbackQuery>)

  /** `InlineKeyboardButton.WithCallbackData(text, callbackData)`. */
  datatype Button = Button(text: string, callbackData: string)

  datatype BotCommand = BotCommand(command: string, description: string)

  /** One outbound Bot API call with its arguments. */
  datatype Action =
    | SetMyCommands(commands: seq<BotCommand>)
    | SendMessage(chatId: int64, text: string, replyMarkup: Option<seq<seq<Button>>>)
    | AnswerCallbackQuery(callbackQueryId: string, text: string, showAlert: bool)
}
