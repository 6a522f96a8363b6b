/**
 * The one entity of the org chart: a position node.  The TypeScript record
 * has optional localized names and section (`?:`), which become `Option`s,
 * and a nullable parent id, which becomes `Option<string>`.
 */
module PositionModel {

  import opened Wrappers

  datatype SalaryType = Normal | Commission

  datatype Node = Node(
    id: string,
    name: string,
    nameThai: Option<string>,
    nameChinese: Option<string>,
    nameVietnamese: Option<string>,
    section: Option<string>,
    salaryType: SalaryType,
    levelIndex: int,        // -1: in the pool of available nodes; 0: root level
    parentId: Option<string>
  )

  /** JavaScript truthiness of a `string | null`: neither null nor the empty string. */
  predicate Truthy(o: Option<string>) {
    o.Some? && o.value != ""
  }

}
