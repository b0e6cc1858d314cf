/** Direction of an order: buy, sell, or fund creation and redemption. */
module Trading {
  datatype BsFlag = Buy | Sell | Create | Redeem | OtherBs
}
