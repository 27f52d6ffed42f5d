/** Value types used by several services. */
module Shared {
  datatype Option<+T> = None | Some(value: T)

  /** The conversational channels (app/shared/workflow/enums.py). */
  datatype Channel = WhatsApp | Email

  /** The platform locales (app/shared/i18n.py). */
  datatype Locale = En | Ar

  function Min(a: int, b: int): int {
    if a <= b then a else b
  }

  function Max(a: int, b: int): int {
    if a >= b then a else b
  }
}
