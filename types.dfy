/** The records the dashboard passes around (lib/types.ts). */
module Types {

  datatype Option<T> = None | Some(value: T)

  datatype Address = Address(address: string, city: string, state: string, postalCode: string, country: string)

  datatype Company = Company(department: string, name: string, title: string)

  datatype Performance = Performance(rating: int, projects: int, feedback: seq<string>)

  datatype Employee = Employee(
    id: int,
    firstName: string,
    lastName: string,
    email: string,
    age: int,
    phone: string,
    address: Address,
    company: Company,
    image: string,
    performance: Performance,
    bio: string)

  /** The fields a user fills in on the "new employee" form. */
  datatype CreateEmployeeData = CreateEmployeeData(
    firstName: string,
    lastName: string,
    email: string,
    age: int,
    phone: string,
    department: string,
    title: string,
    bio: string)

  datatype PaginationData = PaginationData(currentPage: int, totalPages: int, totalItems: int, itemsPerPage: int)

  /** One page of employees together with its metadata. */
  datatype Page = Page(employees: seq<Employee>, pagination: PaginationData)

  /**
   * Per-department analytics entry. The average rating is kept in integer
   * tenths: 43 stands for 4.3.
   */
  datatype DepartmentStat = DepartmentStat(name: string, count: nat, averageTenths: int)
}
