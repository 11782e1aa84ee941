/** `Army` (risk/army.py is not part of this model; its shape follows how
    risk/game.py uses it): the owner of a country's soldiers and their
    number. */
module Armies {
  import opened Players

  datatype Army = Army(owner: Player, nSoldiers: int)
}
