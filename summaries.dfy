/** What the incident and the evidence summary generators share. */
module Summaries {

  /** The line both summaries close with when there is something to summarize. */
  const EndOfReport := "END OF REPORT\n"
}
