/** A row of the `employees` table as the components read it. */
module Employees {
  import opened Optional

  /** A nullable text column: `None` is SQL NULL (or a property the row lacks). */
  type Column = Option<string>

  /** The employee id is kept as its text form: the components compare it
      for equality, and the id search matches it as a substring of that text. */
  datatype Employee = Employee(
    empid: string,
    empname: string,
    classification: Column,
    division: Column,
    department: Column,
    site: Column,
    directorate: Column,
    grouping: Column,
    uid: Column,
    password: Column)

}
