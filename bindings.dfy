/** Storage owned outside every editing session, reached through a binding. */
module Bindings {

  /**
   The state a host view owns (a `@State` property) and hands out as a
   `Binding`: reading the binding reads `value`, writing it assigns `value`.
   */
  class Storage<V> {
    var value: V

    constructor (value: V)
      ensures this.value == value
    {
      this.value := value;
    }
  }
}
