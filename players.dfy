/** A participant as entered on a setup screen. */
module Players {

  datatype Player = Player(id: string, name: string)
}
