/** The records the backend returns, as the dashboards type them. They are
    opaque transfer objects: the model keeps only the fields the components
    read. */
module Records {
  import opened Outcomes

  datatype IssueStatus = Pending | Assigned | InProgress | Resolved

  datatype Issue = Issue(
    id: string,
    description: string,
    status: IssueStatus,
    category: string,
    userEmail: string,
    assignedTechnician: Option<string>,
    createdAt: string,
    imageUrl: Option<string>)

  datatype TechnicianStatus = Available | Busy

  datatype Technician = Technician(id: string, name: string, status: TechnicianStatus, specialty: string)

  datatype UserRecord = UserRecord(id: string, name: string, email: string, phone: string, createdAt: string)
}
