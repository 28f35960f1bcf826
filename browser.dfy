/** The Selenium WebDriver as the scrapers see it. Element lookups, clicks and waits are
    given to each operation as their outcomes; what stays observable is which pages the
    driver was told to open, in order. */
module Browser {

  class Driver {
    /** Every `driver.get(url)` call so far, whether or not the page then loaded. */
    var history: seq<string>

    constructor ()
      ensures history == []
    {
      history := [];
    }

    method Get(url: string)
      modifies this
      ensures history == old(history) + [url]
    {
      history := history + [url];
    }
  }
}
