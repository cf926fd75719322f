/** The commands exchanged by rovers and the base. */
module Commands {
  datatype Command =
    | SESSION_INIT
    | SESSION_ACCEPT
    | SESSION_CONFIRM
    | SESSION_ESTABLISHED
    | SET_LOW_POWER(on: bool)
    | SET_TARGET_COORD
    | ROVER_ANNOUNCE
    | ROVER_DISCOVER
    | OTHER(name: string)
}
