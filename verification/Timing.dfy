/** How far from its due time a timer may fire, in milliseconds. */
module Timing {
  datatype Slack = Slack(early: nat, late: nat)
}
