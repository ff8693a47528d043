/** The "express interest" dialog: its class list, the business name it
    shows, and the page body's overflow style, which it switches so that the
    page behind it does not scroll while it is open. */
module Modal {
  /** The acknowledgement shown when the interest form is submitted. */
  const Acknowledgement: string :=
    "Thank you for your interest! A Key Global Projects consultant will contact you within 24 hours."

  class InterestModal {
    /** The dialog's class list. */
    var classes: set<string>
    /** The text of the dialog's business-name element. */
    var businessName: string
    /** `document.body.style.overflow`. */
    var bodyOverflow: string

    predicate IsOpen()
      reads this`classes
    {
      "active" in classes
    }

    /** Scrolling is locked while the dialog is open and restored while it
        is closed. */
    predicate Valid()
      reads this
    {
      bodyOverflow == (if IsOpen() then "hidden" else "")
    }

    /** The dialog as the markup renders it: closed, with scrolling
        enabled. */
    constructor (classes: set<string>, businessName: string)
      requires "active" !in classes
      ensures Valid() && !IsOpen()
      ensures this.classes == classes && this.businessName == businessName && bodyOverflow == ""
    {
      this.classes := classes;
      this.businessName := businessName;
      bodyOverflow := "";
    }

    /** `openInterestModal`: shows the business's name, opens the dialog and
        locks scrolling. The other classes are kept. */
    method Open(name: string)
      modifies this
      ensures Valid() && IsOpen()
      ensures businessName == name
      ensures classes == old(classes) + {"active"}
      ensures bodyOverflow == "hidden"
    {
      businessName := name;
      classes := classes + {"active"};
      bodyOverflow := "hidden";
    }

    /** `closeInterestModal`: closes the dialog and restores scrolling,
        whatever the state before; closing a closed dialog changes
        nothing. */
    method Close()
      requires Valid()
      modifies this`classes, this`bodyOverflow
      ensures Valid() && !IsOpen()
      ensures classes == old(classes) - {"active"}
      ensures bodyOverflow == ""
      ensures !old(IsOpen()) ==> classes == old(classes) && bodyOverflow == old(bodyOverflow)
    {
      classes := classes - {"active"};
      bodyOverflow := "";
    }

    /** `submitInterest`: returns the acknowledgement to show and closes the
        dialog. */
    method Submit() returns (message: string)
      requires Valid()
      modifies this`classes, this`bodyOverflow
      ensures message == Acknowledgement
      ensures Valid() && !IsOpen()
      ensures classes == old(classes) - {"active"} && bodyOverflow == ""
    {
      message := Acknowledgement;
      Close();
    }

    /** The document's keydown handler: the Escape key closes the dialog,
        any other key leaves it as it is. */
    method KeyDown(key: string)
      requires Valid()
      modifies this`classes, this`bodyOverflow
      ensures Valid()
      ensures key == "Escape" ==> !IsOpen() && classes == old(classes) - {"active"} && bodyOverflow == ""
      ensures key != "Escape" ==> classes == old(classes) && bodyOverflow == old(bodyOverflow)
    {
      if key == "Escape" {
        Close();
      }
    }
  }
}
