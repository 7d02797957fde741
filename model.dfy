/** The in-memory description of one struct that the generator works from. */
module Model {

  /**
   * One field of the struct (`Field`): its Go name, the storage key it is
   * kept under, its rendered Go type, whether it may be missing from the
   * input, whether decoding it must call the `mutate()` hook, and its
   * storage kind as written in the `rqlgen` annotation.
   */
  datatype Field = Field(
    name: string,
    dbName: string,
    goType: string,
    omidempty: bool,
    isPolymorphic: bool,
    dbType: string)

  /** The struct (`Struct`): its fields in declaration order, its name and the receiver name used in generated code. */
  datatype Struct = Struct(fields: seq<Field>, name: string, shortName: string)
}
