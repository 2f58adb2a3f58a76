/**
 * Date presentation. `formatTimestamp` and `formatDateShort` turn a
 * nanosecond timestamp into locale text through the runtime's `Date` and
 * time zone; the model keeps them as arbitrary but fixed functions, supplied
 * by the caller. Being functions, they give the same text for the same
 * timestamp on every call.
 */
module DateTime {
  import opened Backend

  datatype Locale = Locale(
    formatTimestamp: Timestamp -> string,
    formatDateShort: Timestamp -> string)
}
