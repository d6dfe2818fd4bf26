/** Presentation values the decision logic chooses between. */
module Ui {
  /** The badge variants of the component library. */
  datatype BadgeVariant = Default | Secondary | Outline | Destructive

  /** The icon beside a sortable column header. */
  datatype SortIcon = Unsorted | Ascending | Descending
}
