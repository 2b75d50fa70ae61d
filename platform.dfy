/** What the host platform gives the program: the operating system name that
    `platform.system()` reports, reduced to the two values the program tests
    for, and the usual optional value. */
module Platform {

  /** `platform.system()`: "Windows", "Linux", or any other name. */
  datatype Os = Windows | Linux | OtherOs

  datatype Option<+T> = None | Some(value: T)
}
