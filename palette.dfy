/**
 * The colour vocabulary of the dashboard's badges and indicator dots. Each
 * Tailwind class family the pages pick (`bg-green-100 text-green-800`,
 * `bg-pink-500`, `text-amber-600`, ...) is named by its hue; `Plain` is a badge
 * rendered without a colour class.
 */
module Palette {

  datatype Tone = Green | Amber | Yellow | Red | Blue | Pink | Gray | Plain

  /** A status badge: the text shown and its colour. */
  datatype Badge = Badge(text: string, tone: Tone)
}
