/** The order record that the lunch-flow driver keeps in memory. */
module LunchRecords {
  /** Blank is the empty status text. */
  datatype OrderState = Blank | Placed | Cutoff | Other

  datatype OrderRecord = OrderRecord(id: nat, plant: nat, vendor: nat, state: OrderState)
}
