/** frontend/src/components/CampaignManager.jsx: the admin screen that switches between
    the campaign table, the campaign form and the template picker, and the status column
    of the table. */
module CampaignManager {
  import opened Wrappers
  import opened Campaigns

  /** `view`: 'list', 'form' or 'templates'. */
  datatype View = ListView | FormView | TemplatesView

  /** What the form is opened on: a stored campaign, or one of the templates (which have
      no id). */
  datatype Selection = Existing(campaign: Campaign) | Template(name: string)

  /** The screen's state and how often it asked the campaign context to reload. */
  class ManagerView {
    var selected: Option<Selection>
    var isCreating: bool
    var view: View
    var refreshes: nat

    /** A form with nothing selected is always the creation form, and a stored campaign is
        never opened in creation mode. */
    ghost predicate Valid()
      reads this
    {
      && (view.FormView? && selected.None? ==> isCreating)
      && (selected.Some? && selected.value.Existing? ==> !isCreating)
    }

    constructor()
      ensures Valid() && selected.None? && !isCreating && view == ListView && refreshes == 0
    {
      selected := None;
      isCreating := false;
      view := ListView;
      refreshes := 0;
    }

    /** `handleCreateNew`. */
    method CreateNew()
      requires Valid()
      modifies this
      ensures Valid()
      ensures selected.None? && isCreating && view == FormView && refreshes == old(refreshes)
    {
      selected := None;
      isCreating := true;
      view := FormView;
    }

    /** `handleEdit(campaign)`. */
    method Edit(c: Campaign)
      requires Valid()
      modifies this
      ensures Valid()
      ensures selected == Some(Existing(c)) && !isCreating && view == FormView && refreshes == old(refreshes)
    {
      selected := Some(Existing(c));
      isCreating := false;
      view := FormView;
    }

    /** `handleCancel`: back to the table; the creation flag is left as it was. */
    method Cancel()
      requires Valid()
      modifies this
      ensures Valid()
      ensures selected.None? && view == ListView
      ensures isCreating == old(isCreating) && refreshes == old(refreshes)
    {
      selected := None;
      view := ListView;
    }

    /** `handleSuccess`: reload the campaigns and go back to the table. */
    method Success()
      requires Valid()
      modifies this
      ensures Valid()
      ensures view == ListView && refreshes == old(refreshes) + 1
      ensures selected == old(selected) && isCreating == old(isCreating)
    {
      refreshes := refreshes + 1;
      view := ListView;
    }

    /** The "Use Template" button. */
    method OpenTemplates()
      requires Valid()
      modifies this
      ensures Valid()
      ensures view == TemplatesView
      ensures selected == old(selected) && isCreating == old(isCreating) && refreshes == old(refreshes)
    {
      view := TemplatesView;
    }

    /** The template picker's `onSelect(template)`: the form opens on the template and the
        creation flag is left as it was. */
    method SelectTemplate(name: string)
      requires Valid()
      modifies this
      ensures Valid()
      ensures selected == Some(Template(name)) && view == FormView
      ensures isCreating == old(isCreating) && refreshes == old(refreshes)
    {
      selected := Some(Template(name));
      view := FormView;
    }

    /** The template picker's `onCancel`. */
    method CloseTemplates()
      requires Valid()
      modifies this
      ensures Valid()
      ensures view == ListView
      ensures selected == old(selected) && isCreating == old(isCreating) && refreshes == old(refreshes)
    {
      view := ListView;
    }
  }

  /** Picking a template straight after the screen opens shows the form in edit mode:
      the flag still holds its initial false. */
  method TemplateOpensInEditMode(name: string) returns (m: ManagerView)
    ensures m.view == FormView && m.selected == Some(Template(name)) && !m.isCreating
  {
    m := new ManagerView();
    m.OpenTemplates();
    m.SelectTemplate(name);
  }

  /** The status column. It reads the clock twice, `nowAtStart` for the start bound and
      `nowAtEnd` for the end bound; both bounds are inclusive. */
  function StatusText(c: Campaign, nowAtStart: int, nowAtEnd: int): (s: string)
    ensures s == "Active" <==> c.startDate <= nowAtStart && nowAtEnd <= c.endDate
    ensures s == "Active" || s == "Inactive"
  {
    if nowAtStart >= c.startDate && nowAtEnd <= c.endDate then "Active" else "Inactive"
  }

  /** With one reading of the clock the status is the campaign's activity window. */
  lemma StatusIsActivity(c: Campaign, now: int)
    ensures StatusText(c, now, now) == "Active" <==> ActiveAt(c, now)
  {
  }
}
