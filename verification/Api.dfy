/** The control commands clients send to the daemon. */
module Api {
  datatype Command =
    | CommandShutdown | CommandFault | CommandReset | CommandSSMInit | CommandStart | CommandInvalid
}
