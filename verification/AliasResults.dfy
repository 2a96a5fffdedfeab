/** The answers to whether two memory locations may overlap. */
module AliasResults {

  datatype AliasResult = NoAlias | MayAlias | PartialAlias | MustAlias
}
