/** A watch channel: the latest value, and a version that moves with every send. */
module Watch {
  datatype Channel<T> = Channel(version: nat, value: T) {
    function Send(value: T): Channel<T> {
      Channel(version + 1, value)
    }
  }
}
