/** The command-line flags both scripts share, and the one check `parse_args`
    makes on them. */
module Cli {
  import opened Wrappers

  datatype Flags = Flags(saveSummary: bool, getBeep: bool, getEmail: bool, recipient: Option<string>)

  datatype UsageError = RecipientRequired

  /** `not args.recipient` is true both for a missing and for an empty recipient. */
  predicate HasRecipient(recipient: Option<string>) {
    recipient.Some? && recipient.value != ""
  }

  /** `--get-email` without a recipient is a usage error; everything else passes. */
  function CheckArgs(flags: Flags): (r: Result<Flags, UsageError>)
    ensures r.Ok? <==> !flags.getEmail || HasRecipient(flags.recipient)
    ensures r.Ok? ==> r.value == flags
    ensures r.Err? ==> r.error == RecipientRequired
  {
    if flags.getEmail && !HasRecipient(flags.recipient) then Err(RecipientRequired)
    else Ok(flags)
  }
}
