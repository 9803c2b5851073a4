/**
 * The enumerations of the project-management app. Each member has the code
 * the database stores and the label forms show; `XFromCode` is the inverse
 * of `Code()`, so a stored code decodes to exactly one member.
 */
module Choices {
  import opened Wrappers

  datatype TaskStatus = TaskPending | InProgress | Completed {
    function Code(): string {
      match this
      case TaskPending => "PENDING"
      case InProgress => "IN_PROGRESS"
      case Completed => "COMPLETED"
    }
  }

  function TaskStatusFromCode(code: string): (r: Option<TaskStatus>)
    ensures forall s: TaskStatus :: r == Some(s) <==> s.Code() == code
  {
    if code == "PENDING" then Some(TaskPending)
    else if code == "IN_PROGRESS" then Some(InProgress)
    else if code == "COMPLETED" then Some(Completed)
    else None
  }

  /** Shared by tasks, projects and project updates (`TaskPriority`, `ProjectPriority`). */
  datatype Priority = Low | Medium | High {
    function Code(): string {
      match this
      case Low => "LOW"
      case Medium => "MEDIUM"
      case High => "HIGH"
    }
  }

  function PriorityFromCode(code: string): (r: Option<Priority>)
    ensures forall p: Priority :: r == Some(p) <==> p.Code() == code
  {
    if code == "LOW" then Some(Low)
    else if code == "MEDIUM" then Some(Medium)
    else if code == "HIGH" then Some(High)
    else None
  }

  datatype ProjectStatus = ProjectPending | ProjectInProgress | ProjectCompleted {
    function Code(): string {
      match this
      case ProjectPending => "PENDING"
      case ProjectInProgress => "IN_PROGRESS"
      case ProjectCompleted => "COMPLETED"
    }
  }

  function ProjectStatusFromCode(code: string): (r: Option<ProjectStatus>)
    ensures forall s: ProjectStatus :: r == Some(s) <==> s.Code() == code
  {
    if code == "PENDING" then Some(ProjectPending)
    else if code == "IN_PROGRESS" then Some(ProjectInProgress)
    else if code == "COMPLETED" then Some(ProjectCompleted)
    else None
  }

  datatype ProjectRole = UiUx | Developer | Tester {
    function Code(): string {
      match this
      case UiUx => "UI_UX"
      case Developer => "DEVELOPER"
      case Tester => "TESTER"
    }
    function Label(): string {
      match this
      case UiUx => "UI/UX"
      case Developer => "Developer"
      case Tester => "Tester"
    }
  }

  function ProjectRoleFromCode(code: string): (r: Option<ProjectRole>)
    ensures forall p: ProjectRole :: r == Some(p) <==> p.Code() == code
  {
    if code == "UI_UX" then Some(UiUx)
    else if code == "DEVELOPER" then Some(Developer)
    else if code == "TESTER" then Some(Tester)
    else None
  }

  datatype ProjectUpdateStatus = Initiate | Ongoing | OnHold | UpdateComplete {
    function Code(): string {
      match this
      case Initiate => "INITIATE"
      case Ongoing => "ONGOING"
      case OnHold => "ONHOLD"
      case UpdateComplete => "COMPLETE"
    }
  }

  function ProjectUpdateStatusFromCode(code: string): (r: Option<ProjectUpdateStatus>)
    ensures forall s: ProjectUpdateStatus :: r == Some(s) <==> s.Code() == code
  {
    if code == "INITIATE" then Some(Initiate)
    else if code == "ONGOING" then Some(Ongoing)
    else if code == "ONHOLD" then Some(OnHold)
    else if code == "COMPLETE" then Some(UpdateComplete)
    else None
  }

  datatype ProjectUpdateIntent = Info | Query | IssueIntent | Approval {
    function Code(): string {
      match this
      case Info => "INFO"
      case Query => "QUERY"
      case IssueIntent => "ISSUE"
      case Approval => "APPROVAL"
    }
  }

  function ProjectUpdateIntentFromCode(code: string): (r: Option<ProjectUpdateIntent>)
    ensures forall s: ProjectUpdateIntent :: r == Some(s) <==> s.Code() == code
  {
    if code == "INFO" then Some(Info)
    else if code == "QUERY" then Some(Query)
    else if code == "ISSUE" then Some(IssueIntent)
    else if code == "APPROVAL" then Some(Approval)
    else None
  }

  /** A member's own work status and a project's overall status update. */
  datatype WorkStatus = Incomplete | PartiallyDone | Complete {
    function Code(): string {
      match this
      case Incomplete => "INCOMPLETE"
      case PartiallyDone => "PARTIALLY_DONE"
      case Complete => "COMPLETE"
    }
  }

  /** "PENDING" is not among the work-status codes. */
  function WorkStatusFromCode(code: string): (r: Option<WorkStatus>)
    ensures forall s: WorkStatus :: r == Some(s) <==> s.Code() == code
    ensures code == "PENDING" ==> r == None
  {
    if code == "INCOMPLETE" then Some(Incomplete)
    else if code == "PARTIALLY_DONE" then Some(PartiallyDone)
    else if code == "COMPLETE" then Some(Complete)
    else None
  }

  datatype IssueSubject = Leave | WorkFromHome | ProjectIssue | Harassment | TechnicalIssue | Payroll | Other {
    /** The stored code; note that `WorkFromHome` is stored as "WFH". */
    function Code(): string {
      match this
      case Leave => "LEAVE"
      case WorkFromHome => "WFH"
      case ProjectIssue => "PROJECT_ISSUE"
      case Harassment => "HARRASSMENT"
      case TechnicalIssue => "TECHNICAL_ISSUE"
      case Payroll => "PAYROLL"
      case Other => "OTHER"
    }
    function Label(): string {
      match this
      case Leave => "Leave Request"
      case WorkFromHome => "Work From Home"
      case ProjectIssue => "Project Issue"
      case Harassment => "Harrassment"
      case TechnicalIssue => "Technical Issue"
      case Payroll => "Payroll Issue"
      case Other => "Other"
    }
  }

  function IssueSubjectFromCode(code: string): (r: Option<IssueSubject>)
    ensures forall s: IssueSubject :: r == Some(s) <==> s.Code() == code
    ensures code == "WORK_FROM_HOME" ==> r == None
  {
    if code == "LEAVE" then Some(Leave)
    else if code == "WFH" then Some(WorkFromHome)
    else if code == "PROJECT_ISSUE" then Some(ProjectIssue)
    else if code == "HARRASSMENT" then Some(Harassment)
    else if code == "TECHNICAL_ISSUE" then Some(TechnicalIssue)
    else if code == "PAYROLL" then Some(Payroll)
    else if code == "OTHER" then Some(Other)
    else None
  }

  datatype IssueStatus = IssuePending | Accepted | Declined | WfhApproved {
    function Code(): string {
      match this
      case IssuePending => "PENDING"
      case Accepted => "ACCEPTED"
      case Declined => "DECLINED"
      case WfhApproved => "WFH_APPROVED"
    }
  }

  function IssueStatusFromCode(code: string): (r: Option<IssueStatus>)
    ensures forall s: IssueStatus :: r == Some(s) <==> s.Code() == code
  {
    if code == "PENDING" then Some(IssuePending)
    else if code == "ACCEPTED" then Some(Accepted)
    else if code == "DECLINED" then Some(Declined)
    else if code == "WFH_APPROVED" then Some(WfhApproved)
    else None
  }

  /** `ProjectUpdate.CATEGORY_CHOICES`, declared on the model itself. */
  datatype UpdateCategory = Update | Recommendation {
    function Code(): string {
      match this
      case Update => "UPDATE"
      case Recommendation => "RECOMMENDATION"
    }
  }

  function UpdateCategoryFromCode(code: string): (r: Option<UpdateCategory>)
    ensures forall c: UpdateCategory :: r == Some(c) <==> c.Code() == code
  {
    if code == "UPDATE" then Some(Update)
    else if code == "RECOMMENDATION" then Some(Recommendation)
    else None
  }
}
