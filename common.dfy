/** Small shared building blocks used by several modules. */
module Common {

  /** The conventional Some/None wrapper; stands for a pointer that may be null. */
  datatype Option<+T> = None | Some(value: T)

  /**
   * A mutable cell. It stands for a C++ lvalue passed by reference
   * (`auto& object`), which `swap` and `exchange` write through.
   */
  class Ref<T> {
    var value: T

    constructor (v: T)
      ensures value == v
    {
      value := v;
    }
  }
}
