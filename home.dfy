/**
 * The signed-in home screen: the demonstration role toggle and its button
 * text, the dashboard shown for each role, and the job detail dialog's
 * open/selected state.
 */
module Home {
  import opened Wrappers

  /** The three roles the application knows. */
  predicate IsRole(role: string)
  {
    role == "Technician" || role == "Administrator" || role == "BackOffice"
  }

  /** The toggle: Technician, then Administrator, then BackOffice, then back to Technician. */
  function Toggle(role: string): (next: string)
    ensures IsRole(next)
    ensures role == "Technician" ==> next == "Administrator"
    ensures role == "Administrator" ==> next == "BackOffice"
    ensures role != "Technician" && role != "Administrator" ==> next == "Technician"
  {
    if role == "Technician" then "Administrator"
    else if role == "Administrator" then "BackOffice"
    else "Technician"
  }

  /** Three toggles bring every role back; any other value lands on Technician at once. */
  lemma ToggleCycle(role: string)
    ensures IsRole(role) ==> Toggle(Toggle(Toggle(role))) == role
    ensures IsRole(role) ==> Toggle(role) != role && Toggle(Toggle(role)) != role
    ensures !IsRole(role) ==> Toggle(role) == "Technician"
  {
  }

  /** The role the toggle button names: "Administrator" from the technician view, otherwise "Technician". */
  function ToggleLabel(role: string): (name: string)
    ensures name == "Administrator" <==> role == "Technician"
    ensures name == "Technician" <==> role != "Technician"
  {
    if role == "Technician" then "Administrator" else "Technician"
  }

  /** The button names the role it switches to, except in the administrator view. */
  lemma ToggleLabelMismatch(role: string)
    requires IsRole(role)
    ensures ToggleLabel(role) == Toggle(role) <==> role != "Administrator"
    ensures role == "Administrator" ==> ToggleLabel(role) == "Technician" && Toggle(role) == "BackOffice"
  {
  }

  datatype Dashboard = TechnicianDashboard | AdminDashboard | BackOfficeDashboard

  /** The dashboard for a role; any role other than the first two gets the back-office one. */
  function DashboardFor(role: string): (d: Dashboard)
    ensures d == TechnicianDashboard <==> role == "Technician"
    ensures d == AdminDashboard <==> role == "Administrator"
    ensures d == BackOfficeDashboard <==> role != "Technician" && role != "Administrator"
  {
    if role == "Technician" then TechnicianDashboard
    else if role == "Administrator" then AdminDashboard
    else BackOfficeDashboard
  }

  /** Toggling shows each of the three dashboards in turn. */
  lemma ToggleVisitsEveryDashboard(role: string)
    requires IsRole(role)
    ensures {DashboardFor(role), DashboardFor(Toggle(role)), DashboardFor(Toggle(Toggle(role)))}
         == {TechnicianDashboard, AdminDashboard, BackOfficeDashboard}
  {
  }

  /** The dialog is mounted while open with a selected id that is not the empty string. */
  predicate ModalRendered(isOpen: bool, selectedJobId: Option<string>)
  {
    isOpen && selectedJobId.Some? && selectedJobId.value != ""
  }

  class Home {
    var userRole: string
    var selectedJobId: Option<string>
    var isJobModalOpen: bool

    constructor (initialUserRole: string)
      ensures userRole == initialUserRole && selectedJobId == None && !isJobModalOpen
    {
      userRole := initialUserRole;
      selectedJobId := None;
      isJobModalOpen := false;
    }

    function Rendered(): bool
      reads this
    {
      ModalRendered(isJobModalOpen, selectedJobId)
    }

    method ToggleUserRole()
      modifies this`userRole
      ensures userRole == Toggle(old(userRole))
    {
      if userRole == "Technician" {
        userRole := "Administrator";
      } else if userRole == "Administrator" {
        userRole := "BackOffice";
      } else {
        userRole := "Technician";
      }
    }

    /** Viewing a job selects it and opens the dialog. */
    method HandleViewJob(jobId: string)
      modifies this`selectedJobId, this`isJobModalOpen
      ensures selectedJobId == Some(jobId) && isJobModalOpen
      ensures Rendered() <==> jobId != ""
    {
      selectedJobId := Some(jobId);
      isJobModalOpen := true;
    }

    /** Closing the dialog closes it and forgets the selection. */
    method HandleCloseJobModal()
      modifies this`selectedJobId, this`isJobModalOpen
      ensures selectedJobId == None && !isJobModalOpen && !Rendered()
    {
      isJobModalOpen := false;
      selectedJobId := None;
    }

    /** Approving closes the dialog; the selection is kept. */
    method HandleApproveJob()
      modifies this`isJobModalOpen
      ensures !isJobModalOpen && !Rendered()
    {
      isJobModalOpen := false;
    }

    /** Requesting changes closes the dialog; the selection is kept. */
    method HandleRequestChanges()
      modifies this`isJobModalOpen
      ensures !isJobModalOpen && !Rendered()
    {
      isJobModalOpen := false;
    }
  }

  /** After an approval the job stays selected although the dialog is gone. */
  method ApproveKeepsSelection(jobId: string) returns (selected: Option<string>, rendered: bool)
    ensures selected == Some(jobId) && !rendered
  {
    var home := new Home("Technician");
    home.HandleViewJob(jobId);
    home.HandleApproveJob();
    selected := home.selectedJobId;
    rendered := home.Rendered();
  }
}
