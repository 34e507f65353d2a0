/** The two histogram records of the report. Go updates them in place through
    pointer-receiver `Add` methods, so they are classes here. */
module Counters {

  /** Frequency of internal and external links in a document. */
  class LinksCount {
    var internal: int
    var external: int

    /** The zero value of the Go struct. */
    constructor ()
      ensures internal == 0 && external == 0
    {
      internal, external := 0, 0;
    }

    /** "internal" or "external" bumps that counter; any other word changes nothing. */
    method Add(s: string)
      modifies this
      ensures internal == old(internal) + (if s == "internal" then 1 else 0)
      ensures external == old(external) + (if s == "external" then 1 else 0)
    {
      if s == "internal" {
        internal := internal + 1;
      } else if s == "external" {
        external := external + 1;
      }
    }
  }

  /** Frequency of heading start tags by level. */
  class HeadingsCount {
    var h1: int
    var h2: int
    var h3: int
    var h4: int
    var h5: int
    var h6: int

    constructor ()
      ensures h1 == 0 && h2 == 0 && h3 == 0 && h4 == 0 && h5 == 0 && h6 == 0
    {
      h1, h2, h3, h4, h5, h6 := 0, 0, 0, 0, 0, 0;
    }

    /** "h1" .. "h6" bumps exactly that level's counter; any other name changes nothing. */
    method Add(h: string)
      modifies this
      ensures h1 == old(h1) + (if h == "h1" then 1 else 0)
      ensures h2 == old(h2) + (if h == "h2" then 1 else 0)
      ensures h3 == old(h3) + (if h == "h3" then 1 else 0)
      ensures h4 == old(h4) + (if h == "h4" then 1 else 0)
      ensures h5 == old(h5) + (if h == "h5" then 1 else 0)
      ensures h6 == old(h6) + (if h == "h6" then 1 else 0)
    {
      match h {
        case "h1" => h1 := h1 + 1;
        case "h2" => h2 := h2 + 1;
        case "h3" => h3 := h3 + 1;
        case "h4" => h4 := h4 + 1;
        case "h5" => h5 := h5 + 1;
        case "h6" => h6 := h6 + 1;
        case _ =>
      }
    }
  }
}
